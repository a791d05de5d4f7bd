/** The transitions a bulk change offers: workflow by workflow, those every selected issue has. */
module BulkTransitions {
  import opened Adf

  /** A transition available to an issue, as it is answered for that issue. */
  datatype Bean = Bean(id: string, name: string, toId: string, toName: string, hasScreen: bool)

  /**
   * A selected issue with what the repository answers for it: its workflow, the transitions the user
   * may make now, and how many its workflow has from its status.
   */
  datatype Issue = Issue(key: string, workflow: string, beans: seq<Bean>, fromStatus: nat)

  datatype Answer = Read(issue: Issue) | NoWorkflow | NoTransitions

  datatype Candidate = Candidate(id: string, name: string, toId: string, toName: string)

  datatype Group = Group(issues: seq<string>, transitions: map<string, Candidate>, filtered: bool)

  /** The transitions without a screen, by id. */
  function Available(beans: seq<Bean>): (available: map<string, Candidate>)
    ensures forall id :: id in available <==> Offers(beans, id)
    ensures forall id :: id in available ==> available[id].id == id
  {
    if beans == [] then map[]
    else
      var n := |beans| - 1;
      var b := beans[n];
      assert beans == beans[..n] + [b];
      if b.hasScreen then Available(beans[..n])
      else Available(beans[..n])[b.id := Candidate(b.id, b.name, b.toId, b.toName)]
  }

  /** The transition is available, and needs no screen. */
  predicate Offers(beans: seq<Bean>, id: string) {
    exists b :: b in beans && b.id == id && !b.hasScreen
  }

  /** The last bean that offers the transition. */
  predicate LastOffer(beans: seq<Bean>, id: string, k: nat) {
    && k < |beans| && beans[k].id == id && !beans[k].hasScreen
    && forall j :: k < j < |beans| ==> beans[j].hasScreen || beans[j].id != id
  }

  /** A transition is shown with the name and the target of the last bean that offers it. */
  lemma {:induction false} ShownByBean(beans: seq<Bean>, id: string) returns (k: nat)
    requires id in Available(beans)
    ensures LastOffer(beans, id, k)
    ensures var c := Available(beans)[id]; c.name == beans[k].name && c.toId == beans[k].toId && c.toName == beans[k].toName
  {
    hide Offers;
    var n := |beans| - 1;
    if beans[n].hasScreen || beans[n].id != id {
      k := ShownByBean(beans[..n], id);
      assert beans[k] == beans[..n][k];
      assert forall j :: k < j < n ==> beans[j] == beans[..n][j];
    } else {
      k := n;
    }
  }

  predicate InWorkflow(i: Issue, w: string) {
    i.workflow == w
  }

  /** The keys of a workflow's issues, in the order they were selected. */
  function KeysOf(issues: seq<Issue>, w: string): seq<string> {
    if issues == [] then []
    else
      var last := issues[|issues| - 1];
      KeysOf(issues[..|issues| - 1], w) + (if InWorkflow(last, w) then [last.key] else [])
  }

  /** Some issue of the workflow is denied a transition its status has, or is offered one with a screen. */
  predicate SomeFiltered(issues: seq<Issue>, w: string)
  {
    exists i :: 0 <= i < |issues| && InWorkflow(issues[i], w) && |Available(issues[i].beans)| != issues[i].fromStatus
  }

  /** Every selected issue of the workflow offers the transition. */
  predicate CommonTo(issues: seq<Issue>, w: string, id: string)
  {
    forall i :: 0 <= i < |issues| && InWorkflow(issues[i], w) ==> Offers(issues[i].beans, id)
  }

  /** What an issue adds to its workflow's group. */
  function Joined(groups: map<string, Group>, i: Issue): map<string, Group>
  {
    var w, available := i.workflow, Available(i.beans);
    var g := if w in groups then
               groups[w].(transitions := map id | id in groups[w].transitions && id in available :: groups[w].transitions[id])
             else Group([], available, false);
    groups[w := g.(issues := g.issues + [i.key], filtered := g.filtered || |available| != i.fromStatus)]
  }

  function GroupsOf(issues: seq<Issue>): map<string, Group>
  {
    if issues == [] then map[] else Joined(GroupsOf(issues[..|issues| - 1]), issues[|issues| - 1])
  }

  /** The first issue of a workflow says how its transitions are shown. */
  function FirstOf(issues: seq<Issue>, w: string): Option<Issue> {
    if issues == [] then None
    else
      var first := FirstOf(issues[..|issues| - 1], w);
      if first.None? && InWorkflow(issues[|issues| - 1], w) then Some(issues[|issues| - 1]) else first
  }

  /** A group tells of all its workflow's issues. */
  ghost predicate Tells(g: Group, issues: seq<Issue>, w: string)
  {
    && g.issues == KeysOf(issues, w) && g.issues != []
    && (forall id :: id in g.transitions <==> CommonTo(issues, w, id))
    && (g.filtered <==> SomeFiltered(issues, w))
    && FirstOf(issues, w).Some?
    && (forall id :: id in g.transitions ==>
          var available := Available(FirstOf(issues, w).value.beans);
          id in available && g.transitions[id] == available[id])
  }

  lemma KeysOrNone(issues: seq<Issue>, w: string)
    ensures KeysOf(issues, w) == [] <==> forall i :: 0 <= i < |issues| ==> !InWorkflow(issues[i], w)
    ensures KeysOf(issues, w) == [] <==> FirstOf(issues, w).None?
    ensures FirstOf(issues, w).Some? ==> FirstOf(issues, w).value in issues && InWorkflow(FirstOf(issues, w).value, w)
  {
    if issues != [] {
      var n := |issues| - 1;
      assert issues == issues[..n] + [issues[n]];
      KeysOrNone(issues[..n], w);
      assert forall i :: 0 <= i < n ==> issues[..n][i] == issues[i];
    }
  }

  lemma CommonSnoc(issues: seq<Issue>, i: Issue, w: string)
    ensures forall id :: CommonTo(issues + [i], w, id) <==>
              CommonTo(issues, w, id) && (InWorkflow(i, w) ==> Offers(i.beans, id))
    ensures SomeFiltered(issues + [i], w) <==>
              SomeFiltered(issues, w) || (InWorkflow(i, w) && |Available(i.beans)| != i.fromStatus)
    ensures KeysOf(issues + [i], w) == KeysOf(issues, w) + (if InWorkflow(i, w) then [i.key] else [])
    ensures FirstOf(issues + [i], w) ==
              if FirstOf(issues, w).None? && InWorkflow(i, w) then Some(i) else FirstOf(issues, w)
  {
    hide InWorkflow, Offers, Available;
    var all := issues + [i];
    assert all[..|issues|] == issues && all[|issues|] == i;
    forall id ensures CommonTo(all, w, id) <==> CommonTo(issues, w, id) && (InWorkflow(i, w) ==> Offers(i.beans, id)) {
      assert forall k :: 0 <= k < |issues| ==> all[k] == issues[k];
    }
  }

  /** An issue narrows its own workflow's group, and leaves the others alone. */
  lemma JoinTells(groups: map<string, Group>, issues: seq<Issue>, i: Issue, w: string)
    requires w in groups <==> KeysOf(issues, w) != []
    requires w in groups ==> Tells(groups[w], issues, w)
    ensures w in Joined(groups, i) <==> KeysOf(issues + [i], w) != []
    ensures w in Joined(groups, i) ==> Tells(Joined(groups, i)[w], issues + [i], w)
  {
    CommonSnoc(issues, i, w);
    hide CommonTo, SomeFiltered, KeysOf, FirstOf, Available;
    if !InWorkflow(i, w) {
      assert w in groups <==> w in Joined(groups, i);
    } else if w in groups {
      NarrowTells(groups[w], issues, i, w);
    } else {
      NoneBefore(issues, w);
      hide Offers;
    }
  }

  lemma NarrowTells(g: Group, issues: seq<Issue>, i: Issue, w: string)
    requires InWorkflow(i, w) && Tells(g, issues, w)
    ensures var available := Available(i.beans);
            Tells(Group(g.issues + [i.key], map id | id in g.transitions && id in available :: g.transitions[id],
                        g.filtered || |available| != i.fromStatus), issues + [i], w)
  {
    CommonSnoc(issues, i, w);
    hide CommonTo, SomeFiltered, KeysOf, FirstOf, Available, Offers;
  }

  lemma NoneBefore(issues: seq<Issue>, w: string)
    requires KeysOf(issues, w) == []
    ensures !SomeFiltered(issues, w) && FirstOf(issues, w).None? && forall id :: CommonTo(issues, w, id)
  {
    hide InWorkflow, Offers, Available;
    KeysOrNone(issues, w);
  }

  /**
   * Each workflow with a selected issue has a group: its issues in the order selected; the
   * transitions that are available without a screen on every one of them, as the first of them shows
   * them; and whether any of them was denied a transition.
   */
  lemma {:induction false} GroupsTell(issues: seq<Issue>, w: string)
    ensures w in GroupsOf(issues) <==> KeysOf(issues, w) != []
    ensures w in GroupsOf(issues) ==> Tells(GroupsOf(issues)[w], issues, w)
  {
    hide GroupsOf, Joined, Tells, KeysOf, CommonTo, SomeFiltered, FirstOf, Available, Offers;
    if issues == [] {
      NoGroups(w);
    } else {
      GroupsStep(issues);
      var n := |issues| - 1;
      GroupsTell(issues[..n], w);
      JoinTells(GroupsOf(issues[..n]), issues[..n], issues[n], w);
      assert issues == issues[..n] + [issues[n]];
    }
  }

  lemma NoGroups(w: string)
    ensures GroupsOf([]) == map[] && KeysOf([], w) == []
  {
  }

  lemma GroupsStep(issues: seq<Issue>)
    requires issues != []
    ensures GroupsOf(issues) == Joined(GroupsOf(issues[..|issues| - 1]), issues[|issues| - 1])
  {
    hide Joined;
  }

  /** Whatever order the issues arrive in, the same transitions are offered of the same workflows. */
  lemma OrderDoesNotMatter(issues: seq<Issue>, others: seq<Issue>, w: string)
    requires forall i :: i in issues <==> i in others
    ensures w in GroupsOf(issues) <==> w in GroupsOf(others)
    ensures w in GroupsOf(issues) ==>
              && GroupsOf(issues)[w].transitions.Keys == GroupsOf(others)[w].transitions.Keys
              && GroupsOf(issues)[w].filtered == GroupsOf(others)[w].filtered
  {
    hide GroupsOf, KeysOf, FirstOf, CommonTo, SomeFiltered;
    GroupsTell(issues, w);
    GroupsTell(others, w);
    SameIssues(issues, others, w);
    SameIssues(others, issues, w);
  }

  lemma SameIssues(issues: seq<Issue>, others: seq<Issue>, w: string)
    requires forall i :: i in issues ==> i in others
    ensures KeysOf(issues, w) != [] ==> KeysOf(others, w) != []
    ensures forall id :: CommonTo(others, w, id) ==> CommonTo(issues, w, id)
    ensures SomeFiltered(issues, w) ==> SomeFiltered(others, w)
  {
    hide KeysOf, FirstOf, Available, Offers, InWorkflow;
    KeysOrNone(issues, w);
    KeysOrNone(others, w);
    forall i | i in issues ensures exists k :: 0 <= k < |others| && others[k] == i {
      assert i in others;
    }
    forall k | 0 <= k < |issues| ensures issues[k] in issues {
    }
  }

  // ---- the loop ----

  /** The available transitions of one issue. */
  method AvailableOf(beans: seq<Bean>) returns (available: map<string, Candidate>)
    ensures available == Available(beans)
  {
    hide Offers;
    available := map[];
    for k := 0 to |beans|
      invariant available == Available(beans[..k])
    {
      assert beans[..k + 1][..k] == beans[..k];
      var bean := beans[k];
      if bean.hasScreen { continue; }
      available := available[bean.id := Candidate(bean.id, bean.name, bean.toId, bean.toName)];
    }
    assert beans[..|beans|] == beans;
  }

  predicate AllRead(answers: seq<Answer>) {
    forall k :: 0 <= k < |answers| ==> answers[k].Read?
  }

  function IssuesOf(answers: seq<Answer>): (issues: seq<Issue>)
    requires AllRead(answers)
    ensures |issues| == |answers| && forall k :: 0 <= k < |issues| ==> issues[k] == answers[k].issue
  {
    seq(|answers|, k requires 0 <= k < |answers| => answers[k].issue)
  }

  predicate StopsWith(answer: Answer, error: string) {
    !answer.Read? &&
    error == if answer.NoWorkflow? then "Could not read issue workflows." else "Could not read available transitions."
  }

  /** Go through the selected issues, narrowing each workflow's group; a read that fails ends it. */
  method BulkAvailableTransitions(answers: seq<Answer>) returns (groups: Option<map<string, Group>>, error: string)
    ensures groups.Some? <==> AllRead(answers)
    ensures groups.Some? ==> groups.value == GroupsOf(IssuesOf(answers))
    ensures groups.None? ==> exists k :: 0 <= k < |answers| && AllRead(answers[..k]) && StopsWith(answers[k], error)
  {
    hide Available;
    var found := map[];
    error := "";
    for k := 0 to |answers|
      invariant AllRead(answers[..k])
      invariant found == GroupsOf(IssuesOf(answers[..k]))
    {
      if answers[k].NoWorkflow? { return None, "Could not read issue workflows."; }
      if answers[k].NoTransitions? { return None, "Could not read available transitions."; }
      assert IssuesOf(answers[..k + 1])[..k] == IssuesOf(answers[..k]);
      found := AddIssue(found, answers[k].issue);
    }
    assert answers[..|answers|] == answers;
    groups := Some(found);
  }

  /** Put one issue into its workflow's group. */
  method AddIssue(groups: map<string, Group>, issue: Issue) returns (found: map<string, Group>)
    ensures found == Joined(groups, issue)
  {
    hide Available, Offers;
    var w := issue.workflow;
    var available := AvailableOf(issue.beans);
    var group;
    if w !in groups {
      group := Group([], available, false);
    } else {
      group := groups[w];
      group := group.(transitions := map id | id in group.transitions && id in available :: group.transitions[id]);
    }
    group := group.(issues := group.issues + [issue.key]);
    if |available| != issue.fromStatus { group := group.(filtered := true); }
    found := groups[w := group];
  }
}
