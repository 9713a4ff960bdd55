// The automatic default security group, from the network inventory to the deletion plan
// (list-project-resources.py, _exclude_default_security_group; delete-project-resources.py).

module NetworkPlan {
  import opened AliasTables
  import opened CanonicalNames
  import opened DeletionPlan
  import opened Filters
  import opened Inventory
  import opened Options
  import Planning

  const NETWORK := "network"
  const GROUPS := "security_group"
  const RULES := "security_group_rule"

  /** Objects by resource name. */
  type Lists = map<string, seq<Obj>>

  type Attrs = map<string, string>

  function Text(attrs: Attrs, key: string): string { if key in attrs then attrs[key] else "" }

  /** Case folding is a parameter. */
  predicate IsDefault(fold: string -> string, attrs: Attrs) { fold(Text(attrs, "name")) == "default" }

  function DefaultIds(fold: string -> string, groups: seq<Obj>): set<string> {
    set g | g in groups && IsDefault(fold, g.attrs) :: Text(g.attrs, "id")
  }

  function Outside(ids: set<string>, key: string): Obj -> bool { (o: Obj) => Text(o.attrs, key) !in ids }

  function ListOf(lists: Lists, name: string): seq<Obj> { if name in lists then lists[name] else [] }

  /** What the exclusion leaves of the collected objects. */
  ghost predicate WithoutDefaults(fold: string -> string, before: Lists, after: Lists) {
    var ids := DefaultIds(fold, ListOf(before, GROUPS));
    && after.Keys == before.Keys
    && (forall n :: n != GROUPS && n != RULES ==> ListOf(after, n) == ListOf(before, n))
    && ListOf(after, GROUPS) == Filter(ListOf(before, GROUPS), Outside(ids, "id"))
    && ListOf(after, RULES) == Filter(ListOf(before, RULES), Outside(ids, "security_group_id"))
  }

  class Collected {
    var objects: Lists
    var result: Lists

    /** The lists to report are those of the objects. */
    ghost predicate InStep()
      reads this
    {
      forall n :: ListOf(result, n) == ListOf(objects, n)
    }

    /** _exclude_default_security_group. */
    method ExcludeDefault(fold: string -> string)
      modifies this
      ensures WithoutDefaults(fold, old(objects), objects)
      ensures old(InStep()) ==> InStep()
    {
      var ids := DefaultIds(fold, ListOf(objects, GROUPS));
      if ids == {} {
        KeepAll(ListOf(objects, GROUPS), "id");
        KeepAll(ListOf(objects, RULES), "security_group_id");
        return;
      }
      GroupsListed(fold, objects);
      NamesDiffer();
      Replace(GROUPS, Filter(objects[GROUPS], Outside(ids, "id")));
      if RULES in objects { Replace(RULES, Filter(objects[RULES], Outside(ids, "security_group_id"))); }
    }

    method Replace(name: string, objs: seq<Obj>)
      modifies this
      ensures objects == old(objects)[name := objs] && result == old(result)[name := objs]
    {
      objects := objects[name := objs];
      result := result[name := objects[name]];
    }
  }

  lemma GroupsListed(fold: string -> string, lists: Lists)
    requires DefaultIds(fold, ListOf(lists, GROUPS)) != {}
    ensures GROUPS in lists
  {
  }

  lemma NamesDiffer()
    ensures GROUPS != RULES
  {
    assert |GROUPS| != |RULES|;
  }

  lemma KeepAll(objs: seq<Obj>, key: string)
    ensures Filter(objs, Outside({}, key)) == objs
  {
    FilterAll(objs, Outside({}, key));
  }

  /** No listed group is a default one, and no listed rule belongs to one of the groups that were. */
  ghost predicate NoDefaults(fold: string -> string, groups: seq<Obj>, lists: Lists) {
    && (forall g :: g in ListOf(lists, GROUPS) ==> !IsDefault(fold, g.attrs))
    && (forall r :: r in ListOf(lists, RULES) ==> Text(r.attrs, "security_group_id") !in DefaultIds(fold, groups))
  }

  /** Filtering by id removes every default group, together with any that shares its id, and the rules of
      those groups; all others stay, in order. */
  lemma ExclusionRemoves(fold: string -> string, groups: seq<Obj>, rules: seq<Obj>, g: Obj, r: Obj)
    ensures var ids := DefaultIds(fold, groups);
            && (g in Filter(groups, Outside(ids, "id")) <==> g in groups && Text(g.attrs, "id") !in ids)
            && (g in Filter(groups, Outside(ids, "id")) ==> !IsDefault(fold, g.attrs))
            && (r in Filter(rules, Outside(ids, "security_group_id"))
                <==> r in rules && Text(r.attrs, "security_group_id") !in ids)
  {
    var ids := DefaultIds(fold, groups);
    FilterMember(groups, Outside(ids, "id"), g);
    FilterMember(rules, Outside(ids, "security_group_id"), r);
  }

  lemma ExclusionComplete(fold: string -> string, before: Lists, after: Lists)
    requires WithoutDefaults(fold, before, after)
    ensures NoDefaults(fold, ListOf(before, GROUPS), after)
  {
    var groups, rules := ListOf(before, GROUPS), ListOf(before, RULES);
    forall g | g in ListOf(after, GROUPS)
      ensures !IsDefault(fold, g.attrs)
    {
      ExclusionRemoves(fold, groups, rules, g, g);
    }
    forall r | r in ListOf(after, RULES) ensures Text(r.attrs, "security_group_id") !in DefaultIds(fold, groups) {
      ExclusionRemoves(fold, groups, rules, r, r);
    }
  }

  // ---------- Through the planner ----------

  /** The network objects of the report are the listed ones. */
  ghost predicate Shows(rules: Rules, report: Report, lists: Lists) {
    forall s, e, item :: s in report && s.Service? && e in s.kinds && e.objects.Listed? && item in e.objects.items
      && rules.canonicalService(s.name) == NETWORK
      ==> item.Item? && exists o :: o in ListOf(lists, e.name) && o.attrs == item.attrs
  }

  /** A network entry that counts as groups or rules is listed under that very name. */
  ghost predicate NamedDirectly(rules: Rules, report: Report) {
    forall s, e :: s in report && s.Service? && e in s.kinds && rules.canonicalService(s.name) == NETWORK
      && rules.canonicalResource(e.name) in {GROUPS, RULES}
      ==> e.name == rules.canonicalResource(e.name)
  }

  lemma NoDefaultPlanned(rules: Rules, report: Report, lists: Lists, fold: string -> string, groups: seq<Obj>,
                         op: DeletionPlan.Operation)
    requires NoDefaults(fold, groups, lists) && Shows(rules, report, lists) && NamedDirectly(rules, report)
    requires op in Planning.Plan(rules, report) && op.resource.service == NETWORK
    ensures op.resource.kind == GROUPS ==> !IsDefault(fold, op.resource.attrs)
    ensures op.resource.kind == RULES ==> Text(op.resource.attrs, "security_group_id") !in DefaultIds(fold, groups)
  {
    Planning.PlannedIsListed(rules, report, op);
    var k, item :| ListedObject(rules, report, k, item) && FateOf(rules, k, item) == Entry(op.resource);
    var s, e :| s in report && s.Service? && e in s.kinds && e.objects.Listed? && item in e.objects.items
      && k == (rules.canonicalService(s.name), rules.canonicalResource(e.name));
    var o :| o in ListOf(lists, e.name) && o.attrs == item.attrs;
  }

  // ---------- A report built from the collected lists ----------

  function ItemsOf(objs: seq<Obj>): seq<Item> {
    seq(|objs|, i requires 0 <= i < |objs| => Item(objs[i].attrs))
  }

  /** The report of one service: every listed resource name with its objects. */
  function ReportOf(service: string, names: seq<string>, lists: Lists): Report {
    [Service(service, seq(|names|, i requires 0 <= i < |names| =>
      KindEntry(names[i], Listed(ItemsOf(ListOf(lists, names[i]))))))]
  }

  lemma ReportShows(rules: Rules, service: string, names: seq<string>, lists: Lists)
    ensures Shows(rules, ReportOf(service, names, lists), lists)
  {
    var report := ReportOf(service, names, lists);
    forall s, e, item | s in report && s.Service? && e in s.kinds && e.objects.Listed? && item in e.objects.items
      ensures item.Item? && exists o :: o in ListOf(lists, e.name) && o.attrs == item.attrs
    {
      var i :| 0 <= i < |names| && s.kinds[i] == e;
      var objs := ListOf(lists, names[i]);
      var j :| 0 <= j < |objs| && ItemsOf(objs)[j] == item;
      assert objs[j] in objs && objs[j].attrs == item.attrs;
    }
  }

  predicate NamedDefault(fold: string -> string, attrs: Attrs) {
    "name" in attrs && fold(attrs["name"]) == "default"
  }

  /** From the collected objects to the plan: after the exclusion, whatever is listed or filtered later on, no
      planned operation deletes a default security group or a rule of one, provided the listed names that
      count as groups or rules are the two names themselves and those two lists do not grow. */
  lemma NoDefaultInPlan(rules: Rules, service: string, names: seq<string>, fold: string -> string, before: Lists,
                        after: Lists, last: Lists, op: DeletionPlan.Operation)
    requires WithoutDefaults(fold, before, after) && rules.canonicalService(service) == NETWORK
    requires forall n, o :: n in {GROUPS, RULES} && o in ListOf(last, n) ==> o in ListOf(after, n)
    requires forall n :: n in names && rules.canonicalResource(n) in {GROUPS, RULES} ==> n == rules.canonicalResource(n)
    requires op in Planning.Plan(rules, ReportOf(service, names, last)) && op.resource.service == NETWORK
    ensures op.resource.kind == GROUPS ==> !IsDefault(fold, op.resource.attrs)
    ensures op.resource.kind == RULES ==>
              Text(op.resource.attrs, "security_group_id") !in DefaultIds(fold, ListOf(before, GROUPS))
    // On the attributes themselves.
    ensures op.resource.kind == GROUPS && "name" in op.resource.attrs ==> fold(op.resource.attrs["name"]) != "default"
    ensures op.resource.kind == RULES && "security_group_id" in op.resource.attrs ==>
              forall g :: g in ListOf(before, GROUPS) && NamedDefault(fold, g.attrs) && "id" in g.attrs ==>
                op.resource.attrs["security_group_id"] != g.attrs["id"]
  {
    var report := ReportOf(service, names, last);
    ExclusionComplete(fold, before, after);
    assert NoDefaults(fold, ListOf(before, GROUPS), last);
    ReportShows(rules, service, names, last);
    forall s, e | s in report && s.Service? && e in s.kinds && rules.canonicalResource(e.name) in {GROUPS, RULES}
      ensures e.name == rules.canonicalResource(e.name)
    {
      var i :| 0 <= i < |names| && s.kinds[i] == e;
      assert names[i] in names;
    }
    NoDefaultPlanned(rules, report, last, fold, ListOf(before, GROUPS), op);
    if op.resource.kind == RULES {
      forall g | g in ListOf(before, GROUPS) && NamedDefault(fold, g.attrs)
        ensures Text(g.attrs, "id") in DefaultIds(fold, ListOf(before, GROUPS))
      {
        assert IsDefault(fold, g.attrs);
      }
    }
  }

  /** With the tool's own names the two lists are planned under their own names, so the condition above holds
      of them; a list under the plural, by contrast, would count as groups without having been filtered. */
  lemma ToolNames(lower: Lowering)
    requires LowersAscii(lower)
    ensures CanonicalResource(lower, ResourceAliases(), GROUPS) == GROUPS
    ensures CanonicalResource(lower, ResourceAliases(), RULES) == RULES
    ensures CanonicalResource(lower, ResourceAliases(), "security_groups") == GROUPS && "security_groups" != GROUPS
  {
    GroupNames();
    RuleName();
    SingularIsCanonical(lower, GROUPS);
    SingularIsCanonical(lower, RULES);
    PluralGroups();
    RegularAlias(lower, "security_groups");
  }

  lemma RuleName()
    ensures Normal(RULES) && !EndsInS(RULES)
  {
  }

  lemma GroupNames()
    ensures Normal(GROUPS) && !EndsInS(GROUPS)
  {
  }

  lemma GroupIsRegular()
    ensures GROUPS in Regular()
  {
    assert "security_group" in Regular1();
  }

  lemma PluralGroups()
    ensures var n := "security_groups";
            Normal(n) && EndsInS(n) && n[..|n|-1] == GROUPS && n[..|n|-1] in Regular() && n !in Irregular()
  {
    GroupIsRegular();
    PluralNormal();
    PluralStem();
    IrregularLetters("security_groups");
  }

  lemma PluralNormal()
    ensures Normal("security_groups")
  {
  }

  lemma PluralStem()
    ensures var n := "security_groups"; EndsInS(n) && n[..|n|-1] == GROUPS
  {
  }

  lemma IrregularLetters(n: string)
    ensures n in Irregular() ==> n != "" && !(|n| == 15 && n[0] == 's')
  {
  }
}
