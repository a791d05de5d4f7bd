/** The fields a bulk edit offers: those that the form of every selected work item has. */
module BulkFields {
  import opened Text
  import opened Adf

  datatype FieldOption = FieldOption(id: string, name: string)

  /** A field of a form, as the metadata lists it. */
  datatype Source = Source(id: string, name: string, kind: string, description: string, required: bool, options: seq<FieldOption>)

  /** A project of the metadata, with the form of each of its work types. */
  datatype Project = Project(id: string, key: string, forms: map<string, seq<Source>>)

  datatype Item = Item(projectId: string, typeId: string)

  function FieldsForIssueType(p: Project, typeId: string): seq<Source> {
    if typeId in p.forms then p.forms[typeId] else []
  }

  /** Time tracking stands for two estimates, which are edited apart. */
  function Expanded(form: seq<Source>): (sources: seq<Source>)
    ensures forall s :: s in form && s.kind != "timetracking" ==> s in sources
  {
    if form == [] then []
    else
      var last := form[|form| - 1];
      Expanded(form[..|form| - 1]) +
        (if last.kind != "timetracking" then [last]
         else [Source("timeoriginalestimate", "Original estimate", "originalEstimate", "", false, []),
               Source("timeestimate", "Remaining estimate", "timeTracking", "", false, [])])
  }

  method BulkEditableSources(form: seq<Source>) returns (sources: seq<Source>)
    ensures sources == Expanded(form)
  {
    sources := [];
    for i := 0 to |form|
      invariant sources == Expanded(form[..i])
    {
      assert form[..i + 1][..i] == form[..i];
      if form[i].kind != "timetracking" {
        sources := sources + [form[i]];
      } else {
        sources := sources + [Source("timeoriginalestimate", "Original estimate", "originalEstimate", "", false, []),
                              Source("timeestimate", "Remaining estimate", "timeTracking", "", false, [])];
      }
    }
    assert form[..|form|] == form;
  }

  /** The name under which a bulk edit knows a field, or none if it cannot edit the field. */
  function EditableType(s: Source): string {
    if s.id == "reporter" then "reporter"
    else if s.kind == "user" then "assignee"
    else if s.kind == "priority" then "priority"
    else if s.kind == "components" then "components"
    else if s.kind == "versions" then "versions"
    else if s.kind == "array" then "labels"
    else if s.kind == "doc" then "richText"
    else if s.kind == "number" then "number"
    else if s.kind == "datetime" then "dateTime"
    else if s.kind == "securitylevel" || s.kind == "option" then "singleSelect"
    else if s.kind == "string" then "singleLineText"
    else if s.kind == "options" then "multiSelect"
    else if s.kind == "option-with-child" then "cascadingSelect"
    else if s.kind == "users" then "multiUser"
    else if s.kind == "group" then "singleGroup"
    else if s.kind == "groups" then "multiGroup"
    else if s.kind == "version" then "singleVersion"
    else if s.kind == "date" then "datePicker"
    else if s.kind == "url" then "url"
    else if s.kind == "originalEstimate" || s.kind == "timeTracking" then s.kind
    else ""
  }

  /** The fields a bulk edit knows, by the kinds of the metadata. */
  const EDITABLE: map<string, string> :=
    map["user" := "assignee", "priority" := "priority", "components" := "components", "versions" := "versions",
        "array" := "labels", "doc" := "richText", "number" := "number", "datetime" := "dateTime",
        "securitylevel" := "singleSelect", "option" := "singleSelect", "string" := "singleLineText",
        "options" := "multiSelect", "option-with-child" := "cascadingSelect", "users" := "multiUser",
        "group" := "singleGroup", "groups" := "multiGroup", "version" := "singleVersion", "date" := "datePicker",
        "url" := "url", "originalEstimate" := "originalEstimate", "timeTracking" := "timeTracking"]

  lemma PlainKinds(s: Source)
    requires s.id != "reporter"
    ensures s.kind in {"user", "priority", "components", "versions", "array", "doc", "number", "datetime"} ==>
              s.kind in EDITABLE && EditableType(s) == EDITABLE[s.kind]
  {
  }

  lemma ChoiceKinds(s: Source)
    requires s.id != "reporter"
    ensures s.kind in {"securitylevel", "option", "string", "options", "option-with-child", "users", "group", "groups"} ==>
              s.kind in EDITABLE && EditableType(s) == EDITABLE[s.kind]
  {
  }

  lemma OtherKinds(s: Source)
    requires s.id != "reporter"
    ensures s.kind in {"version", "date", "url", "originalEstimate", "timeTracking"} ==>
              s.kind in EDITABLE && EditableType(s) == EDITABLE[s.kind]
    ensures s.kind !in EDITABLE ==> EditableType(s) == ""
  {
  }

  lemma KnownKinds(kind: string)
    requires kind in EDITABLE
    ensures || kind in {"user", "priority", "components", "versions", "array", "doc", "number", "datetime"}
            || kind in {"securitylevel", "option", "string", "options", "option-with-child", "users", "group", "groups"}
            || kind in {"version", "date", "url", "originalEstimate", "timeTracking"}
  {
  }

  lemma EditableByKind(s: Source)
    ensures s.id != "reporter" ==> EditableType(s) == if s.kind in EDITABLE then EDITABLE[s.kind] else ""
  {
    hide EditableType;
    if s.id != "reporter" {
      PlainKinds(s);
      ChoiceKinds(s);
      OtherKinds(s);
      if s.kind in EDITABLE { KnownKinds(s.kind); }
    }
  }

  datatype OptionBean = Person(accountId: string, displayName: string) | Priority(id: string, priority: string) | Plain(id: string, name: string)

  function BulkFieldOption(kind: string, option: FieldOption): OptionBean {
    if kind == "assignee" || kind == "reporter" then Person(option.id, option.name)
    else if kind == "priority" then Priority(option.id, option.name)
    else Plain(option.id, option.name)
  }

  datatype Field = Field(id: string, name: string, kind: string, description: string, required: bool,
                         searchKeys: Option<set<string>>, multiSelect: bool)

  datatype Candidate = Candidate(field: Field, seen: nat, options: map<FieldOption, OptionBean>)

  datatype Offer = Offer(field: Field, options: map<FieldOption, OptionBean>, unavailable: bool)

  /** A field the bulk edit considers: the reporter has a contract of its own. */
  predicate Considered(s: Source) {
    s.id != "reporter" && EditableType(s) != ""
  }

  function NewField(s: Source, projectKeys: set<string>): Field {
    var kind := EditableType(s);
    Field(s.id, s.name, kind, s.description, s.required,
          if kind == "assignee" then Some(projectKeys) else None,
          kind == "components" || kind == "labels" || kind == "versions")
  }

  /**
   * A field is offered under its name, description and kind; an assignee is searched for in the selected
   * projects; and only components, labels and versions take several values.
   */
  lemma FieldIsDescribed(s: Source, projectKeys: set<string>)
    requires Considered(s)
    ensures var f := NewField(s, projectKeys);
            && f.id == s.id && f.name == s.name && f.description == s.description && f.required == s.required
            && f.kind == EDITABLE[s.kind]
            && f.searchKeys == (if s.kind == "user" then Some(projectKeys) else None)
            && (f.multiSelect <==> s.kind in {"components", "array", "versions"})
  {
    EditableByKind(s);
  }

  function WithOptions(m: map<FieldOption, OptionBean>, kind: string, options: seq<FieldOption>): (n: map<FieldOption, OptionBean>)
    ensures n.Keys == m.Keys + set o | o in options
    ensures forall o :: o in n ==> n[o] == if o in options then BulkFieldOption(kind, o) else m[o]
  {
    if options == [] then m
    else
      var last := options[|options| - 1];
      assert options == options[..|options| - 1] + [last];
      WithOptions(m, kind, options[..|options| - 1])[last := BulkFieldOption(kind, last)]
  }

  /** Count a field of a form among the candidates. */
  function Counted(m: map<string, Candidate>, s: Source, projectKeys: set<string>): map<string, Candidate> {
    if !Considered(s) then m
    else
      var e := if s.id in m then m[s.id] else Candidate(NewField(s, projectKeys), 0, map[]);
      m[s.id := Candidate(e.field.(required := e.field.required || s.required), e.seen + 1,
                          WithOptions(e.options, EditableType(s), s.options))]
  }

  function CountedAll(m: map<string, Candidate>, sources: seq<Source>, projectKeys: set<string>): map<string, Candidate> {
    if sources == [] then m
    else Counted(CountedAll(m, sources[..|sources| - 1], projectKeys), sources[|sources| - 1], projectKeys)
  }

  // ---- what counting finds ----

  predicate Names(s: Source, id: string) {
    Considered(s) && s.id == id
  }

  function Times(sources: seq<Source>, id: string): nat {
    if sources == [] then 0
    else Times(sources[..|sources| - 1], id) + (if Names(sources[|sources| - 1], id) then 1 else 0)
  }

  ghost predicate Requires(sources: seq<Source>, id: string) {
    exists s :: s in sources && Names(s, id) && s.required
  }

  ghost predicate Lists(sources: seq<Source>, id: string, option: FieldOption) {
    exists s :: s in sources && Names(s, id) && option in s.options
  }

  /** One of the sources gave the field its name and description. */
  ghost predicate Describes(sources: seq<Source>, id: string, f: Field, projectKeys: set<string>) {
    exists s :: s in sources && Names(s, id) && f == NewField(s, projectKeys).(required := f.required)
  }

  /** A candidate tells of all the sources: how often, whether required, and with which options. */
  ghost predicate Tells(m: map<string, Candidate>, sources: seq<Source>, projectKeys: set<string>, id: string) {
    && (id in m <==> Times(sources, id) > 0)
    && (id in m ==>
        && m[id].seen == Times(sources, id)
        && (m[id].field.required <==> Requires(sources, id))
        && (forall o :: o in m[id].options <==> Lists(sources, id, o))
        && Describes(sources, id, m[id].field, projectKeys))
  }

  lemma TimesSnoc(sources: seq<Source>, s: Source, id: string)
    ensures Times(sources + [s], id) == Times(sources, id) + (if Names(s, id) then 1 else 0)
  {
    hide Names;
    assert (sources + [s])[..|sources|] == sources;
  }

  lemma SourcesSnoc(sources: seq<Source>, s: Source, id: string)
    ensures Requires(sources + [s], id) <==> Requires(sources, id) || (Names(s, id) && s.required)
    ensures forall o :: Lists(sources + [s], id, o) <==> Lists(sources, id, o) || (Names(s, id) && o in s.options)
  {
    hide Names, NewField;
  }

  lemma StillDescribes(sources: seq<Source>, s: Source, id: string, f: Field, required: bool, projectKeys: set<string>)
    requires Describes(sources, id, f, projectKeys)
    ensures Describes(sources + [s], id, f.(required := required), projectKeys)
  {
    hide Names, NewField;
    var t :| t in sources && Names(t, id) && f == NewField(t, projectKeys).(required := f.required);
    assert t in sources + [s];
  }

  lemma NewDescribes(sources: seq<Source>, s: Source, id: string, projectKeys: set<string>)
    requires Names(s, id)
    ensures Describes(sources + [s], id, NewField(s, projectKeys), projectKeys)
    ensures NewField(s, projectKeys).required == s.required
    ensures NewField(s, projectKeys).(required := s.required) == NewField(s, projectKeys)
  {
    hide EditableType;
    assert s in sources + [s];
  }

  lemma NoneYet(sources: seq<Source>, id: string)
    requires Times(sources, id) == 0
    ensures !Requires(sources, id) && forall o :: !Lists(sources, id, o)
  {
    hide Names;
    if sources != [] {
      var n := |sources| - 1;
      assert sources == sources[..n] + [sources[n]];
      NoneYet(sources[..n], id);
      SourcesSnoc(sources[..n], sources[n], id);
      hide Requires, Lists;
    }
  }

  lemma OneMoreTells(m: map<string, Candidate>, sources: seq<Source>, s: Source, projectKeys: set<string>, id: string)
    requires Tells(m, sources, projectKeys, id)
    ensures Tells(Counted(m, s, projectKeys), sources + [s], projectKeys, id)
  {
    hide Requires, Lists, Describes, Times, NewField, EditableType, WithOptions;
    TimesSnoc(sources, s, id);
    SourcesSnoc(sources, s, id);
    if Times(sources, id) == 0 { NoneYet(sources, id); }
    if Names(s, id) {
      if id in m {
        StillDescribes(sources, s, id, m[id].field, m[id].field.required || s.required, projectKeys);
      } else {
        NewDescribes(sources, s, id, projectKeys);
      }
    } else if id in m {
      StillDescribes(sources, s, id, m[id].field, m[id].field.required, projectKeys);
    }
  }

  lemma {:induction false} CandidatesTell(sources: seq<Source>, projectKeys: set<string>, id: string)
    ensures Tells(CountedAll(map[], sources, projectKeys), sources, projectKeys, id)
  {
    hide Counted, Describes, Requires, Lists;
    if sources != [] {
      var n := |sources| - 1;
      CandidatesTell(sources[..n], projectKeys, id);
      hide Tells;
      assert sources == sources[..n] + [sources[n]];
      OneMoreTells(CountedAll(map[], sources[..n], projectKeys), sources[..n], sources[n], projectKeys, id);
    }
  }

  /** How an option of a field is shown: a person or a priority as such, and any other plainly. */
  predicate Shows(bean: OptionBean, s: Source, o: FieldOption) {
    if s.kind == "user" then bean == Person(o.id, o.name)
    else if s.kind == "priority" then bean == Priority(o.id, o.name)
    else bean == Plain(o.id, o.name)
  }

  ghost predicate ListedBy(sources: seq<Source>, id: string, o: FieldOption, bean: OptionBean) {
    exists s :: s in sources && Names(s, id) && o in s.options && Shows(bean, s, o)
  }

  lemma ListedByMore(sources: seq<Source>, s: Source, id: string, o: FieldOption, bean: OptionBean)
    requires ListedBy(sources, id, o, bean) || (Names(s, id) && o in s.options && Shows(bean, s, o))
    ensures ListedBy(sources + [s], id, o, bean)
  {
    hide Names, Shows;
    if ListedBy(sources, id, o, bean) {
      var t :| t in sources && Names(t, id) && o in t.options && Shows(bean, t, o);
      assert t in sources + [s];
    } else {
      assert s in sources + [s];
    }
  }

  lemma BeanShows(s: Source, o: FieldOption)
    requires Considered(s)
    ensures Shows(BulkFieldOption(EditableType(s), o), s, o)
  {
  }

  /** Every option of a candidate is shown as one of the sources that list it has it. */
  lemma {:induction false} OptionsShown(sources: seq<Source>, projectKeys: set<string>, id: string, o: FieldOption)
    requires var m := CountedAll(map[], sources, projectKeys); id in m && o in m[id].options
    ensures ListedBy(sources, id, o, CountedAll(map[], sources, projectKeys)[id].options[o])
  {
    hide EditableType, BulkFieldOption, ListedBy, Shows, NewField;
    var n := |sources| - 1;
    var before, s := CountedAll(map[], sources[..n], projectKeys), sources[n];
    var bean := CountedAll(map[], sources, projectKeys)[id].options[o];
    assert sources == sources[..n] + [s];
    if Considered(s) { BeanShows(s, o); }
    if Names(s, id) && o in s.options {
      assert bean == BulkFieldOption(EditableType(s), o);
    } else {
      OptionsShown(sources[..n], projectKeys, id, o);
    }
    ListedByMore(sources[..n], s, id, o, bean);
  }

  // ---- forms ----

  function Flatten(forms: seq<seq<Source>>): seq<Source> {
    if forms == [] then [] else Flatten(forms[..|forms| - 1]) + forms[|forms| - 1]
  }

  /** A form has the field, and a bulk edit can edit it there. */
  ghost predicate Has(form: seq<Source>, id: string) {
    exists s :: s in form && Names(s, id)
  }

  /** The form lists no field twice, time tracking expanded. */
  predicate ListsOnce(form: seq<Source>) {
    forall i, j :: 0 <= i < j < |form| && Considered(form[i]) && Considered(form[j]) ==> form[i].id != form[j].id
  }

  lemma {:induction false} TimesConcat(a: seq<Source>, b: seq<Source>, id: string)
    ensures Times(a + b, id) == Times(a, id) + Times(b, id)
  {
    hide Names;
    if b == [] {
      assert a + b == a;
    } else {
      var n := |b| - 1;
      TimesConcat(a, b[..n], id);
      assert (a + b)[..|a + b| - 1] == a + b[..n];
    }
  }

  lemma {:induction false} TimesOnce(form: seq<Source>, id: string)
    requires ListsOnce(form)
    ensures Times(form, id) == if Has(form, id) then 1 else 0
  {
    if form != [] {
      var n := |form| - 1;
      assert form == form[..n] + [form[n]];
      TimesOnce(form[..n], id);
    }
  }

  lemma ForallSnoc(forms: seq<seq<Source>>, id: string)
    requires forms != []
    ensures var n := |forms| - 1;
            (forall k :: 0 <= k < |forms| ==> Has(forms[k], id)) <==>
            (forall k :: 0 <= k < n ==> Has(forms[..n][k], id)) && Has(forms[n], id)
  {
    hide Has;
    var n := |forms| - 1;
    assert forall k :: 0 <= k < n ==> forms[..n][k] == forms[k];
  }

  /**
   * Where each form lists its fields once, a field is counted as often as there are forms exactly
   * when every form has it.
   */
  lemma {:induction false} CountIsIntersection(forms: seq<seq<Source>>, id: string)
    requires forall k :: 0 <= k < |forms| ==> ListsOnce(forms[k])
    ensures Times(Flatten(forms), id) <= |forms|
    ensures Times(Flatten(forms), id) == |forms| <==> forall k :: 0 <= k < |forms| ==> Has(forms[k], id)
  {
    hide ListsOnce, Has;
    if forms != [] {
      var n := |forms| - 1;
      CountIsIntersection(forms[..n], id);
      ForallSnoc(forms, id);
      hide Times;
      TimesConcat(Flatten(forms[..n]), forms[n], id);
      TimesOnce(forms[n], id);
    }
  }

  lemma {:induction false} HasIsCounted(form: seq<Source>, id: string)
    ensures Has(form, id) <==> Times(form, id) > 0
  {
    hide Names;
    if form != [] {
      var n := |form| - 1;
      assert form == form[..n] + [form[n]];
      HasIsCounted(form[..n], id);
    }
  }

  lemma HasPart(a: seq<Source>, b: seq<Source>, i: nat, id: string)
    requires i < |a| && Names(a[i], id)
    ensures Times(a, id) > 0 && Times(a + b, id) == Times(a, id) + Times(b, id) && Has(a + b, id)
  {
    hide Names, Times;
    TimesConcat(a, b, id);
    HasIsCounted(a, id);
    HasIsCounted(a + b, id);
  }

  lemma Repeated(form: seq<Source>) returns (i: nat, j: nat)
    requires !ListsOnce(form)
    ensures i < j < |form| && Names(form[i], form[i].id) && Names(form[j], form[i].id)
  {
    hide Considered;
    i, j :| 0 <= i < j < |form| && Considered(form[i]) && Considered(form[j]) && form[i].id == form[j].id;
  }

  /** A form that does not list its fields once counts some field twice. */
  lemma CountedTwice(form: seq<Source>) returns (id: string)
    requires !ListsOnce(form)
    ensures Has(form, id) && Times(form, id) >= 2
  {
    hide ListsOnce, Times, Has, Names;
    var i, j := Repeated(form);
    id := form[i].id;
    var a, b := form[..j], form[j..];
    assert a[i] == form[i] && b[0] == form[j] && form == a + b && b + [] == b;
    HasPart(a, b, i, id);
    HasPart(b, [], 0, id);
  }

  /** The count says of a field whether every form has it. */
  ghost predicate CountsRight(forms: seq<seq<Source>>, id: string) {
    Times(Flatten(forms), id) == |forms| <==> forall k :: 0 <= k < |forms| ==> Has(forms[k], id)
  }

  ghost predicate Drawn(forms: seq<seq<Source>>, pool: set<seq<Source>>) {
    forms != [] && forall k :: 0 <= k < |forms| ==> forms[k] in pool
  }

  lemma FlattenOne(form: seq<Source>)
    ensures Flatten([form]) == form
  {
    assert [form][..0] == [];
  }

  /**
   * The count gives the intersection for every selection out of a pool of forms if and only if
   * each form of the pool lists its fields once.
   */
  lemma CountsRightExactly(pool: set<seq<Source>>)
    ensures (forall f :: f in pool ==> ListsOnce(f)) <==>
            (forall forms, id :: Drawn(forms, pool) ==> CountsRight(forms, id))
  {
    hide ListsOnce, Has, Times, Flatten;
    if forall f :: f in pool ==> ListsOnce(f) {
      forall forms, id | Drawn(forms, pool) ensures CountsRight(forms, id) {
        CountIsIntersection(forms, id);
      }
    }
    if f :| f in pool && !ListsOnce(f) {
      var id := CountedTwice(f);
      FlattenOne(f);
      assert Drawn([f], pool) && !CountsRight([f], id);
    }
  }

  lemma {:induction false} InFlatten(forms: seq<seq<Source>>, s: Source)
    ensures s in Flatten(forms) <==> exists k :: 0 <= k < |forms| && s in forms[k]
  {
    if forms != [] {
      var n := |forms| - 1;
      InFlatten(forms[..n], s);
      assert forall k :: 0 <= k < n ==> forms[..n][k] == forms[k];
    }
  }

  // ---- the selection ----

  function TypesOf(items: seq<Item>, projectId: string): set<string> {
    set i | 0 <= i < |items| && items[i].projectId == projectId :: items[i].typeId
  }

  /** The form of a work type, in a project of the metadata, that some selected work item has. */
  predicate Selected(metadata: seq<Project>, items: seq<Item>, i: int, typeId: string): (selected: bool)
    ensures selected ==> 0 <= i < |metadata|
  {
    0 <= i < |metadata| && typeId in TypesOf(items, metadata[i].id)
  }

  function FormAt(p: Project, typeId: string): seq<Source> {
    Expanded(FieldsForIssueType(p, typeId))
  }

  function Types(selection: map<string, set<string>>, projectId: string): set<string> {
    if projectId in selection then selection[projectId] else {}
  }

  method Select(items: seq<Item>) returns (selection: map<string, set<string>>)
    ensures forall p :: Types(selection, p) == TypesOf(items, p)
    ensures forall p :: p in selection ==> selection[p] != {}
  {
    selection := map[];
    for k := 0 to |items|
      invariant forall p :: Types(selection, p) == TypesOf(items[..k], p)
      invariant forall p :: p in selection ==> selection[p] != {}
    {
      var item := items[k];
      ghost var before := selection;
      selection := selection[item.projectId := Types(selection, item.projectId) + {item.typeId}];
      forall p ensures Types(selection, p) == TypesOf(items[..k + 1], p) {
        TypesSnoc(items, k, p);
      }
    }
    assert items[..|items|] == items;
  }

  lemma TypesSnoc(items: seq<Item>, k: nat, p: string)
    requires k < |items|
    ensures TypesOf(items[..k + 1], p) == TypesOf(items[..k], p) + (if items[k].projectId == p then {items[k].typeId} else {})
  {
    var all, some := items[..k + 1], items[..k];
    assert all == some + [items[k]];
    forall t | t in TypesOf(some, p) ensures t in TypesOf(all, p) {
      var i :| 0 <= i < |some| && some[i].projectId == p && some[i].typeId == t;
      assert all[i] == some[i];
    }
    assert all[k] == items[k];
  }

  /** The keys of the projects that the selection has work items of. */
  function ProjectKeys(metadata: seq<Project>, items: seq<Item>): set<string> {
    set p | p in metadata && TypesOf(items, p.id) != {} :: p.key
  }

  /** How many forms the selection has: one for each work type of each listed project. */
  function Combinations(metadata: seq<Project>, selection: map<string, set<string>>): nat {
    if metadata == [] then 0
    else Combinations(metadata[..|metadata| - 1], selection) + |Types(selection, metadata[|metadata| - 1].id)|
  }

  method CountCombinations(metadata: seq<Project>, selection: map<string, set<string>>) returns (combinations: nat, keys: set<string>)
    ensures combinations == Combinations(metadata, selection)
    ensures keys == set p | p in metadata && p.id in selection :: p.key
  {
    combinations, keys := 0, {};
    for i := 0 to |metadata|
      invariant combinations == Combinations(metadata[..i], selection)
      invariant keys == set p | p in metadata[..i] && p.id in selection :: p.key
    {
      assert metadata[..i + 1] == metadata[..i] + [metadata[i]];
      if metadata[i].id in selection {
        keys := keys + {metadata[i].key};
        combinations := combinations + |selection[metadata[i].id]|;
      }
    }
    assert metadata[..|metadata|] == metadata;
  }

  lemma {:induction false} CountedMore(m: map<string, Candidate>, a: seq<Source>, b: seq<Source>, keys: set<string>)
    ensures CountedAll(m, a + b, keys) == CountedAll(CountedAll(m, a, keys), b, keys)
  {
    hide Counted;
    if b == [] {
      assert a + b == a;
    } else {
      var n := |b| - 1;
      CountedMore(m, a, b[..n], keys);
      assert (a + b)[..|a + b| - 1] == a + b[..n];
    }
  }

  /** Count one field of a form, unless it is the reporter or cannot be edited in bulk. */
  method CountSource(candidates: map<string, Candidate>, s: Source, keys: set<string>) returns (counted: map<string, Candidate>)
    ensures counted == Counted(candidates, s, keys)
  {
    hide NewField, WithOptions, EditableType;
    counted := candidates;
    if s.id == "reporter" { return; }
    var kind := EditableType(s);
    if kind == "" { return; }
    var entry := if s.id in counted then counted[s.id] else Candidate(NewField(s, keys), 0, map[]);
    entry := entry.(seen := entry.seen + 1);
    if s.required { entry := entry.(field := entry.field.(required := true)); }
    entry := entry.(options := WithOptions(entry.options, kind, s.options));
    counted := counted[s.id := entry];
  }

  /** Go through one form, counting its fields. */
  method CountForm(candidates: map<string, Candidate>, form: seq<Source>, keys: set<string>) returns (counted: map<string, Candidate>)
    ensures counted == CountedAll(candidates, Expanded(form), keys)
  {
    hide Counted, Expanded;
    var sources := BulkEditableSources(form);
    counted := candidates;
    for j := 0 to |sources|
      invariant counted == CountedAll(candidates, sources[..j], keys)
    {
      assert sources[..j + 1][..j] == sources[..j];
      counted := CountSource(counted, sources[j], keys);
    }
    assert sources[..|sources|] == sources;
  }

  // ---- the forms gone through ----

  predicate Unrepeated<T(==)>(s: seq<T>) {
    forall i, j :: 0 <= i < j < |s| ==> s[i] != s[j]
  }

  function FormsAt(p: Project, types: seq<string>): (forms: seq<seq<Source>>)
    ensures |forms| == |types|
  {
    seq(|types|, k requires 0 <= k < |types| => FormAt(p, types[k]))
  }

  predicate Listed(metadata: seq<Project>, pairs: seq<(int, string)>) {
    forall k :: 0 <= k < |pairs| ==> 0 <= pairs[k].0 < |metadata|
  }

  /** The forms of projects, by their places in the metadata, and work types. */
  function FormsFor(metadata: seq<Project>, pairs: seq<(int, string)>): (forms: seq<seq<Source>>)
    requires Listed(metadata, pairs)
    ensures |forms| == |pairs|
  {
    seq(|pairs|, k requires 0 <= k < |pairs| => FormAt(metadata[pairs[k].0], pairs[k].1))
  }

  ghost predicate Covers(visited: seq<string>, types: set<string>) {
    Unrepeated(visited) && forall t :: t in visited <==> t in types
  }

  /** Each work type selected in the first projects of the metadata, once. */
  ghost predicate Visits(metadata: seq<Project>, selection: map<string, set<string>>, n: nat, pairs: seq<(int, string)>) {
    && n <= |metadata|
    && Unrepeated(pairs)
    && forall i, t :: (i, t) in pairs <==> 0 <= i < n && t in Types(selection, metadata[i].id)
  }

  /** Each work type of each project that the selection has, once. */
  ghost predicate Enumerates(metadata: seq<Project>, items: seq<Item>, pairs: seq<(int, string)>) {
    && Listed(metadata, pairs)
    && Unrepeated(pairs)
    && forall i, t :: (i, t) in pairs <==> Selected(metadata, items, i, t)
  }

  function PairsAt(i: int, types: seq<string>): (pairs: seq<(int, string)>)
    ensures |pairs| == |types| && forall k :: 0 <= k < |types| ==> pairs[k] == (i, types[k])
  {
    seq(|types|, k requires 0 <= k < |types| => (i, types[k]))
  }

  lemma PairsWithin(i: int, types: seq<string>, all: set<string>)
    requires forall t :: t in types <==> t in all
    ensures forall j, t :: (j, t) in PairsAt(i, types) <==> j == i && t in all
  {
    forall j, t ensures (j, t) in PairsAt(i, types) <==> j == i && t in all {
      if j == i && t in all {
        var k :| 0 <= k < |types| && types[k] == t;
        assert PairsAt(i, types)[k] == (i, t);
      }
    }
  }

  lemma VisitsMore(metadata: seq<Project>, selection: map<string, set<string>>, n: nat, pairs: seq<(int, string)>, types: seq<string>)
    requires n < |metadata| && Visits(metadata, selection, n, pairs) && Covers(types, Types(selection, metadata[n].id))
    ensures Visits(metadata, selection, n + 1, pairs + PairsAt(n, types))
  {
    hide Types;
    var more := PairsAt(n, types);
    var all := pairs + more;
    PairsWithin(n, types, Types(selection, metadata[n].id));
    forall i, j | 0 <= i < j < |all| ensures all[i] != all[j] {
      if i < |pairs| && |pairs| <= j {
        assert (all[i].0, all[i].1) in pairs;
      }
    }
    forall i, t ensures (i, t) in all <==> 0 <= i < n + 1 && t in Types(selection, metadata[i].id) {
      assert (i, t) in all <==> (i, t) in pairs || (i, t) in more;
    }
  }

  lemma FormsForMore(metadata: seq<Project>, pairs: seq<(int, string)>, n: nat, types: seq<string>)
    requires n < |metadata| && Listed(metadata, pairs)
    ensures Listed(metadata, pairs + PairsAt(n, types))
    ensures FormsFor(metadata, pairs + PairsAt(n, types)) == FormsFor(metadata, pairs) + FormsAt(metadata[n], types)
  {
    hide FormAt;
  }

  lemma NoVisits(metadata: seq<Project>, selection: map<string, set<string>>, n: nat, pairs: seq<(int, string)>)
    requires n < |metadata| && Visits(metadata, selection, n, pairs) && metadata[n].id !in selection
    ensures Visits(metadata, selection, n + 1, pairs)
  {
    hide Unrepeated;
  }

  lemma CoversMore(visited: seq<string>, types: set<string>, t: string)
    requires Covers(visited, types) && t !in types
    ensures Covers(visited + [t], types + {t})
  {
  }

  /** Go through the forms of one project's selected work types, in whatever order. */
  method VisitProject(p: Project, types: set<string>, keys: set<string>, candidates: map<string, Candidate>)
      returns (counted: map<string, Candidate>, ghost visited: seq<string>)
    ensures |visited| == |types| && Covers(visited, types)
    ensures counted == CountedAll(candidates, Flatten(FormsAt(p, visited)), keys)
  {
    assert CountedAll(candidates, [], keys) == candidates && Flatten([]) == [];
    counted, visited := candidates, [];
    var rest := types;
    assert FormsAt(p, visited) == [] && types - rest == {};
    hide CountedAll, Expanded, FieldsForIssueType, Flatten, Covers, FormsAt;
    while rest != {}
      invariant rest <= types && |visited| == |types| - |rest|
      invariant Covers(visited, types - rest)
      invariant counted == CountedAll(candidates, Flatten(FormsAt(p, visited)), keys)
    {
      var t :| t in rest;
      counted := CountForm(counted, FieldsForIssueType(p, t), keys);
      OneMoreForm(p, candidates, visited, t, keys);
      CoversMore(visited, types - rest, t);
      assert types - rest + {t} == types - (rest - {t});
      visited := visited + [t];
      rest := rest - {t};
    }
    assert types - rest == types;
  }

  lemma OneMoreForm(p: Project, m: map<string, Candidate>, types: seq<string>, t: string, keys: set<string>)
    ensures CountedAll(m, Flatten(FormsAt(p, types + [t])), keys) ==
            CountedAll(CountedAll(m, Flatten(FormsAt(p, types)), keys), FormAt(p, t), keys)
  {
    hide CountedAll, Flatten, FormAt;
    assert FormsAt(p, types + [t]) == FormsAt(p, types) + [FormAt(p, t)];
    FlattenOne(FormAt(p, t));
    FormsJoin(m, FormsAt(p, types), [FormAt(p, t)], keys);
  }

  lemma {:induction false} FlattenConcat(a: seq<seq<Source>>, b: seq<seq<Source>>)
    ensures Flatten(a + b) == Flatten(a) + Flatten(b)
  {
    if b == [] {
      assert a + b == a;
    } else {
      var n := |b| - 1;
      FlattenConcat(a, b[..n]);
      assert (a + b)[..|a + b| - 1] == a + b[..n] && (a + b)[|a + b| - 1] == b[n];
      Assoc(Flatten(a), Flatten(b[..n]), b[n]);
    }
  }

  lemma FormsJoin(m: map<string, Candidate>, forms: seq<seq<Source>>, more: seq<seq<Source>>, keys: set<string>)
    ensures CountedAll(m, Flatten(forms + more), keys) == CountedAll(CountedAll(m, Flatten(forms), keys), Flatten(more), keys)
  {
    hide CountedAll, Flatten;
    FlattenConcat(forms, more);
    CountedMore(m, Flatten(forms), Flatten(more), keys);
  }

  /** What the first projects of the metadata have added: each form of theirs once, and its fields counted. */
  ghost predicate Gone(metadata: seq<Project>, selection: map<string, set<string>>, keys: set<string>, n: nat,
                       pairs: seq<(int, string)>, candidates: map<string, Candidate>) {
    && Visits(metadata, selection, n, pairs) && Listed(metadata, pairs)
    && |pairs| == Combinations(metadata[..n], selection)
    && candidates == CountedAll(map[], Flatten(FormsFor(metadata, pairs)), keys)
  }

  lemma GoneNowhere(metadata: seq<Project>, selection: map<string, set<string>>, keys: set<string>)
    ensures Gone(metadata, selection, keys, 0, [], map[])
  {
    assert FormsFor(metadata, []) == [] && CountedAll(map[], Flatten([]), keys) == map[];
    assert Visits(metadata, selection, 0, []);
  }

  lemma GonePast(metadata: seq<Project>, selection: map<string, set<string>>, keys: set<string>, n: nat,
                 pairs: seq<(int, string)>, candidates: map<string, Candidate>)
    requires n < |metadata| && Gone(metadata, selection, keys, n, pairs, candidates) && metadata[n].id !in selection
    ensures Gone(metadata, selection, keys, n + 1, pairs, candidates)
  {
    hide CountedAll, Flatten, FormsFor, Visits, Listed;
    assert metadata[..n + 1][..n] == metadata[..n];
    NoVisits(metadata, selection, n, pairs);
  }

  lemma GoneFurther(metadata: seq<Project>, selection: map<string, set<string>>, keys: set<string>, n: nat,
                    pairs: seq<(int, string)>, candidates: map<string, Candidate>, types: seq<string>, counted: map<string, Candidate>)
    requires n < |metadata| && Gone(metadata, selection, keys, n, pairs, candidates)
    requires |types| == |Types(selection, metadata[n].id)| && Covers(types, Types(selection, metadata[n].id))
    requires counted == CountedAll(candidates, Flatten(FormsAt(metadata[n], types)), keys)
    ensures Gone(metadata, selection, keys, n + 1, pairs + PairsAt(n, types), counted)
  {
    hide CountedAll, Flatten, FormsFor, FormsAt, Visits, Listed, Covers, Types;
    assert metadata[..n + 1][..n] == metadata[..n];
    FormsForMore(metadata, pairs, n, types);
    FormsJoin(map[], FormsFor(metadata, pairs), FormsAt(metadata[n], types), keys);
    VisitsMore(metadata, selection, n, pairs, types);
  }

  /** Go through every form of the selection, counting fields. */
  method VisitForms(metadata: seq<Project>, selection: map<string, set<string>>, keys: set<string>)
      returns (candidates: map<string, Candidate>, ghost pairs: seq<(int, string)>)
    ensures |pairs| == Combinations(metadata, selection)
    ensures Visits(metadata, selection, |metadata|, pairs) && Listed(metadata, pairs)
    ensures candidates == CountedAll(map[], Flatten(FormsFor(metadata, pairs)), keys)
  {
    candidates, pairs := map[], [];
    GoneNowhere(metadata, selection, keys);
    assert metadata[..|metadata|] == metadata;
    for i := 0 to |metadata|
      invariant Gone(metadata, selection, keys, i, pairs, candidates)
    {
      hide Gone, CountedAll, Flatten, FormsAt, Covers;
      var p := metadata[i];
      if p.id in selection {
        var counted;
        ghost var types;
        counted, types := VisitProject(p, selection[p.id], keys, candidates);
        GoneFurther(metadata, selection, keys, i, pairs, candidates, types, counted);
        candidates, pairs := counted, pairs + PairsAt(i, types);
      } else {
        GonePast(metadata, selection, keys, i, pairs, candidates);
      }
    }
  }

  // ---- the offer ----

  /** Every form of the selection has the field, and there is at least one. */
  ghost predicate InEveryForm(metadata: seq<Project>, items: seq<Item>, id: string) {
    && (exists i, t :: Selected(metadata, items, i, t))
    && (forall i, t :: Selected(metadata, items, i, t) ==> Has(FormAt(metadata[i], t), id))
  }

  ghost predicate SomeFormRequires(metadata: seq<Project>, items: seq<Item>, id: string) {
    exists i, t :: Selected(metadata, items, i, t) && Requires(FormAt(metadata[i], t), id)
  }

  ghost predicate SomeFormLists(metadata: seq<Project>, items: seq<Item>, id: string, o: FieldOption) {
    exists i, t :: Selected(metadata, items, i, t) && Lists(FormAt(metadata[i], t), id, o)
  }

  /** A form of the selection gives the field its name, its description and its type. */
  ghost predicate SomeFormDescribes(metadata: seq<Project>, items: seq<Item>, f: Field) {
    exists i, t, s :: Selected(metadata, items, i, t) && s in FormAt(metadata[i], t)
                      && Considered(s) && s.id == f.id && s.name == f.name && s.description == f.description && EditableType(s) == f.kind
  }

  /** The metadata lists no field twice in a form of the selection. */
  ghost predicate FormsListOnce(metadata: seq<Project>, items: seq<Item>) {
    forall i, t :: Selected(metadata, items, i, t) ==> ListsOnce(FormAt(metadata[i], t))
  }

  /** The forms gone through, and the forms of the selection, are the same. */
  ghost predicate SameForms(metadata: seq<Project>, items: seq<Item>, forms: seq<seq<Source>>) {
    && (forall f :: f in forms ==> exists i, t :: Selected(metadata, items, i, t) && f == FormAt(metadata[i], t))
    && (forall i, t :: Selected(metadata, items, i, t) ==> FormAt(metadata[i], t) in forms)
  }

  lemma VisitsEnumerate(metadata: seq<Project>, items: seq<Item>, selection: map<string, set<string>>, pairs: seq<(int, string)>)
    requires forall p :: Types(selection, p) == TypesOf(items, p)
    requires Visits(metadata, selection, |metadata|, pairs) && Listed(metadata, pairs)
    ensures Enumerates(metadata, items, pairs)
  {
    hide Types, TypesOf, Unrepeated;
  }

  lemma FormsSame(metadata: seq<Project>, items: seq<Item>, pairs: seq<(int, string)>)
    requires Enumerates(metadata, items, pairs)
    ensures SameForms(metadata, items, FormsFor(metadata, pairs))
  {
    hide FormAt, Selected, Unrepeated;
    var forms := FormsFor(metadata, pairs);
    forall f | f in forms ensures exists i, t :: Selected(metadata, items, i, t) && f == FormAt(metadata[i], t) {
      var k :| 0 <= k < |forms| && f == forms[k];
      assert (pairs[k].0, pairs[k].1) in pairs;
    }
    forall i, t | Selected(metadata, items, i, t) ensures FormAt(metadata[i], t) in forms {
      var k :| 0 <= k < |pairs| && pairs[k] == (i, t);
      assert forms[k] == FormAt(metadata[i], t);
    }
  }

  lemma CountIsOffer(metadata: seq<Project>, items: seq<Item>, forms: seq<seq<Source>>, id: string)
    requires SameForms(metadata, items, forms) && FormsListOnce(metadata, items)
    ensures Times(Flatten(forms), id) == |forms| > 0 <==> InEveryForm(metadata, items, id)
  {
    hide FormAt, Selected, ListsOnce, Has, Times, Flatten;
    assert forall k :: 0 <= k < |forms| ==> forms[k] in forms;
    CountIsIntersection(forms, id);
    if |forms| > 0 { assert forms[0] in forms; }
  }

  lemma FormsTell(metadata: seq<Project>, items: seq<Item>, forms: seq<seq<Source>>, id: string)
    requires SameForms(metadata, items, forms)
    ensures Requires(Flatten(forms), id) <==> SomeFormRequires(metadata, items, id)
    ensures forall o :: Lists(Flatten(forms), id, o) <==> SomeFormLists(metadata, items, id, o)
  {
    hide FormAt, Selected, Names, Flatten;
    forall s ensures s in Flatten(forms) <==> exists i, t :: Selected(metadata, items, i, t) && s in FormAt(metadata[i], t) {
      InFlatten(forms, s);
      if s in Flatten(forms) {
        var k :| 0 <= k < |forms| && s in forms[k];
        assert forms[k] in forms;
      }
    }
  }

  lemma KeysAre(metadata: seq<Project>, items: seq<Item>, selection: map<string, set<string>>)
    requires forall p :: Types(selection, p) == TypesOf(items, p)
    requires forall p :: p in selection ==> selection[p] != {}
    ensures (set p | p in metadata && p.id in selection :: p.key) == ProjectKeys(metadata, items)
  {
    hide TypesOf;
    assert forall p :: p in selection <==> Types(selection, p) != {};
  }

  lemma FormDescribes(metadata: seq<Project>, items: seq<Item>, forms: seq<seq<Source>>, id: string, f: Field, keys: set<string>)
    requires SameForms(metadata, items, forms) && Describes(Flatten(forms), id, f, keys)
    ensures SomeFormDescribes(metadata, items, f) && f.id == id
    ensures f.multiSelect <==> f.kind in {"components", "labels", "versions"}
    ensures f.searchKeys == if f.kind == "assignee" then Some(keys) else None
  {
    hide FormAt, Selected, Flatten, EditableType;
    var s :| s in Flatten(forms) && Names(s, id) && f == NewField(s, keys).(required := f.required);
    InFlatten(forms, s);
    var k :| 0 <= k < |forms| && s in forms[k];
    assert forms[k] in forms;
  }

  /** A field is offered exactly when it is counted as often as there are selected forms. */
  ghost predicate OfferedByCount(metadata: seq<Project>, pairs: seq<(int, string)>, offers: map<string, Offer>, id: string)
    requires Listed(metadata, pairs)
  {
    id in offers <==> Times(Flatten(FormsFor(metadata, pairs)), id) == |pairs| > 0
  }

  /** The selection has the one pair, or the two. */
  ghost predicate Selects(metadata: seq<Project>, items: seq<Item>, a: (int, string), b: (int, string)) {
    forall i, t :: Selected(metadata, items, i, t) <==> (i, t) == a || (i, t) == b
  }

  /** Where a selection has two forms or one, they are gone through in some order. */
  lemma PairsAre(metadata: seq<Project>, items: seq<Item>, pairs: seq<(int, string)>, a: (int, string), b: (int, string))
    requires Enumerates(metadata, items, pairs) && Selects(metadata, items, a, b)
    ensures if a == b then pairs == [a] else pairs == [a, b] || pairs == [b, a]
  {
    hide Selected;
    assert (a.0, a.1) == a && (b.0, b.1) == b;
    assert Selected(metadata, items, a.0, a.1) && Selected(metadata, items, b.0, b.1);
    assert a in pairs && b in pairs;
    forall k | 0 <= k < |pairs| ensures pairs[k] == a || pairs[k] == b { assert (pairs[k].0, pairs[k].1) in pairs; }
    OneOrTwo(pairs, a, b);
  }

  lemma OneOrTwo<T>(s: seq<T>, a: T, b: T)
    requires Unrepeated(s) && a in s && b in s && forall k :: 0 <= k < |s| ==> s[k] == a || s[k] == b
    ensures if a == b then s == [a] else s == [a, b] || s == [b, a]
  {
    ThreeDiffer(s);
    if |s| == 1 { assert s == [s[0]]; } else { assert s == [s[0], s[1]]; }
  }

  lemma ThreeDiffer<T>(s: seq<T>)
    requires Unrepeated(s)
    ensures |s| > 1 ==> s[0] != s[1]
    ensures |s| > 2 ==> s[0] != s[2] && s[1] != s[2]
  {
  }

  lemma TimesOfTwo(form: seq<Source>, other: seq<Source>, id: string)
    ensures Times(Flatten([form, other]), id) == Times(form, id) + Times(other, id)
  {
    FlattenOne(form);
    assert [form, other][..1] == [form];
    hide Flatten, Times;
    TimesConcat(form, other, id);
  }

  /**
   * A form that lists a field twice: where it is the only one selected, the field is withheld though
   * every form has it; beside a form without the field, it is offered though one form lacks it.
   */
  lemma ListedTwiceMisleads(metadata: seq<Project>, items: seq<Item>, pairs: seq<(int, string)>, offers: map<string, Offer>,
                            a: (int, string), b: (int, string), id: string)
    requires Enumerates(metadata, items, pairs) && Selects(metadata, items, a, b) && OfferedByCount(metadata, pairs, offers, id)
    requires Selected(metadata, items, a.0, a.1) && Times(FormAt(metadata[a.0], a.1), id) == 2
    requires Selected(metadata, items, b.0, b.1) && (a != b ==> !Has(FormAt(metadata[b.0], b.1), id))
    ensures id in offers <==> !InEveryForm(metadata, items, id)
  {
    hide Selected, FormAt, Times, Flatten, Has;
    PairsAre(metadata, items, pairs, a, b);
    var form, other := FormAt(metadata[a.0], a.1), FormAt(metadata[b.0], b.1);
    HasIsCounted(form, id);
    HasIsCounted(other, id);
    if a == b {
      assert FormsFor(metadata, pairs) == [form];
      FlattenOne(form);
    } else if pairs == [a, b] {
      assert FormsFor(metadata, pairs) == [form, other];
      TimesOfTwo(form, other, id);
    } else {
      assert FormsFor(metadata, pairs) == [other, form];
      TimesOfTwo(other, form, id);
    }
  }

  // ---- the order by name ----

  /** By name without regard to case, then by id. */
  predicate Comes(a: Offer, b: Offer) {
    var left, right := ToLower(a.field.name), ToLower(b.field.name);
    if left == right then Below(a.field.id, b.field.id) else Below(left, right)
  }

  lemma ComesTransitive(a: Offer, b: Offer, c: Offer)
    requires Comes(a, b) && Comes(b, c)
    ensures Comes(a, c)
  {
    hide ToLower, Below;
    var x, y, z := ToLower(a.field.name), ToLower(b.field.name), ToLower(c.field.name);
    if x == y && y == z {
      BelowTransitive(a.field.id, b.field.id, c.field.id);
    } else if x != y && y != z {
      BelowTransitive(x, y, z);
      BelowTotal(x, y);
    }
  }

  lemma ComesTotal(a: Offer, b: Offer)
    requires a.field.id != b.field.id
    ensures Comes(a, b) || Comes(b, a)
  {
    hide ToLower, Below;
    BelowTotal(ToLower(a.field.name), ToLower(b.field.name));
    BelowTotal(a.field.id, b.field.id);
  }

  predicate InOrder(fields: seq<Offer>) {
    forall i, j :: 0 <= i < j < |fields| ==> Comes(fields[i], fields[j])
  }

  lemma InsertKeepsOrder(fields: seq<Offer>, f: Offer, i: nat)
    requires InOrder(fields) && i <= |fields| && forall g :: g in fields ==> g.field.id != f.field.id
    requires (i > 0 ==> Comes(fields[i - 1], f)) && (i < |fields| ==> !Comes(fields[i], f))
    ensures InOrder(fields[..i] + [f] + fields[i..])
  {
    hide Comes;
    forall j | 0 <= j < i ensures Comes(fields[j], f) {
      if j < i - 1 { ComesTransitive(fields[j], fields[i - 1], f); }
    }
    forall j | i <= j < |fields| ensures Comes(f, fields[j]) {
      assert fields[i] in fields;
      ComesTotal(fields[i], f);
      if i < j { ComesTransitive(f, fields[i], fields[j]); }
    }
    var all := fields[..i] + [f] + fields[i..];
    assert forall j :: 0 <= j < |all| ==> all[j] == if j < i then fields[j] else if j == i then f else fields[j - 1];
  }

  method Insert(fields: seq<Offer>, f: Offer) returns (all: seq<Offer>)
    requires InOrder(fields) && forall g :: g in fields ==> g.field.id != f.field.id
    ensures InOrder(all) && |all| == |fields| + 1 && forall g :: g in all <==> g in fields || g == f
  {
    hide Comes, InOrder;
    var i := 0;
    while i < |fields| && Comes(fields[i], f)
      invariant i <= |fields| && (i > 0 ==> Comes(fields[i - 1], f))
    {
      i := i + 1;
    }
    InsertKeepsOrder(fields, f, i);
    all := fields[..i] + [f] + fields[i..];
    assert fields == fields[..i] + fields[i..];
  }

  /** The sequence holds each field of the map once. */
  ghost predicate Holds(fields: seq<Offer>, offers: map<string, Offer>) {
    |fields| == |offers| && forall f :: f in fields <==> f.field.id in offers && offers[f.field.id] == f
  }

  method SortByName(offers: map<string, Offer>) returns (fields: seq<Offer>)
    requires forall id :: id in offers ==> offers[id].field.id == id
    ensures InOrder(fields) && Holds(fields, offers)
  {
    hide Comes, InOrder;
    NothingInOrder();
    fields := [];
    var rest := offers.Keys;
    assert |offers| == |offers.Keys|;
    while rest != {}
      invariant rest <= offers.Keys && |fields| == |offers| - |rest| && InOrder(fields)
      invariant forall f :: f in fields <==> f.field.id in offers && f.field.id !in rest && offers[f.field.id] == f
    {
      var id :| id in rest;
      fields := Insert(fields, offers[id]);
      rest := rest - {id};
    }
  }

  lemma NothingInOrder()
    ensures InOrder([])
  {
  }

  /**
   * A field, other than the reporter, is offered when it is counted as often as the selection has
   * forms: where each form lists its fields once, exactly when the form of every selected project
   * and work type has it as a field that can be edited in bulk. It is required exactly when some
   * such form requires it, and its options are all of theirs. The answer lists each field once, in
   * the order of their names.
   */
  method CommonBulkEditableFields(metadata: seq<Project>, items: seq<Item>)
      returns (fields: seq<Offer>, ghost offers: map<string, Offer>, ghost pairs: seq<(int, string)>)
    ensures InOrder(fields) && Holds(fields, offers)
    ensures Enumerates(metadata, items, pairs) && forall id :: OfferedByCount(metadata, pairs, offers, id)
    ensures FormsListOnce(metadata, items) ==> forall id :: id in offers <==> InEveryForm(metadata, items, id)
    ensures forall id :: id in offers ==>
              && offers[id].field.id == id && SomeFormDescribes(metadata, items, offers[id].field)
              && (offers[id].field.multiSelect <==> offers[id].field.kind in {"components", "labels", "versions"})
              && offers[id].field.searchKeys == (if offers[id].field.kind == "assignee" then Some(ProjectKeys(metadata, items)) else None)
              && (offers[id].field.required <==> SomeFormRequires(metadata, items, id))
              && (forall o :: o in offers[id].options <==> SomeFormLists(metadata, items, id, o))
              && (offers[id].unavailable <==> offers[id].options == map[] && offers[id].field.kind in {"components", "versions"})
  {
    hide CountedAll, Visits, Enumerates, FormsFor, FormAt, Selected, TypesOf, Types, Requires, Lists, InEveryForm,
         SomeFormRequires, SomeFormLists, SomeFormDescribes, Describes, SameForms, ProjectKeys, FormsListOnce, Flatten, Times,
         NewField, InOrder;
    var selection := Select(items);
    var combinations, keys := CountCombinations(metadata, selection);
    var candidates;
    candidates, pairs := VisitForms(metadata, selection, keys);
    ghost var forms := FormsFor(metadata, pairs);
    VisitsEnumerate(metadata, items, selection, pairs);
    FormsSame(metadata, items, pairs);
    KeysAre(metadata, items, selection);
    var common := map id | id in candidates && candidates[id].seen == combinations ::
      Offer(candidates[id].field, candidates[id].options,
            candidates[id].options == map[] && candidates[id].field.kind in {"components", "versions"});
    offers := common;
    forall id
      ensures OfferedByCount(metadata, pairs, offers, id)
      ensures FormsListOnce(metadata, items) ==> (id in offers <==> InEveryForm(metadata, items, id))
      ensures id in candidates ==>
        && candidates[id].field.id == id && SomeFormDescribes(metadata, items, candidates[id].field)
        && (candidates[id].field.multiSelect <==> candidates[id].field.kind in {"components", "labels", "versions"})
        && candidates[id].field.searchKeys == (if candidates[id].field.kind == "assignee" then Some(keys) else None)
        && (candidates[id].field.required <==> SomeFormRequires(metadata, items, id))
        && (forall o :: o in candidates[id].options <==> SomeFormLists(metadata, items, id, o))
    {
      CandidatesTell(Flatten(forms), keys, id);
      if FormsListOnce(metadata, items) { CountIsOffer(metadata, items, forms, id); }
      FormsTell(metadata, items, forms, id);
      if id in candidates { FormDescribes(metadata, items, forms, id, candidates[id].field, keys); }
    }
    fields := SortByName(common);
  }
}
