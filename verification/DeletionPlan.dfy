// From an inventory report to an ordered deletion plan
// (delete-project-resources.py, _resource_entries and plan_deletions).

module DeletionPlan {
  import opened Options

  // ---------- Reports ----------

  /** An attribute is present when the report holds a scalar for it; the text is already stripped. */
  datatype Item = NotAMapping | Item(attrs: map<string, string>)

  datatype Collection = Nothing | NotAList | Listed(items: seq<Item>)

  datatype KindEntry = KindEntry(name: string, objects: Collection)

  datatype ServiceEntry = NotAnObject(name: string) | Service(name: string, kinds: seq<KindEntry>)

  type Report = seq<ServiceEntry>

  // ---------- Rules ----------

  type KindKey = (string, string)

  /** The tables of the tool, with command_for as `command`. Everything below holds whatever they are. */
  datatype Rules = Rules(
    canonicalService: string -> string,
    canonicalResource: string -> string,
    phases: map<KindKey, int>,
    coveredChildren: set<KindKey>,
    command: Resource -> Option<seq<string>>)

  datatype Resource = Resource(service: string, kind: string, identifier: string, attrs: map<string, string>)

  type Key = (string, string, string)

  function KeyOf(r: Resource): Key { (r.service, r.kind, r.identifier) }

  datatype Operation = Operation(phase: int, resource: Resource, argv: seq<string>)

  datatype Issue =
    | ServiceNotAnObject(service: string)
    | CollectionNotAList(kind: KindKey)
    | Unsupported(kind: KindKey)
    | ObjectNotAMapping(kind: KindKey)
    | NoIdentifier(kind: KindKey, attrs: map<string, string>)
    | NoCommand(resource: Resource)

  function FirstOf(attrs: map<string, string>, keys: seq<string>): string {
    if keys == [] then ""
    else if keys[0] in attrs && attrs[keys[0]] != "" then attrs[keys[0]]
    else FirstOf(attrs, keys[1..])
  }

  function Identifier(attrs: map<string, string>, k: KindKey): string {
    if k == ("workflow", "cron_trigger") then FirstOf(attrs, ["name", "id", "uuid"])
    else if k == ("alarm", "alarm") then
      FirstOf(attrs, ["alarm_id", "id", "uuid", "name", "display_name", "stack_name"])
    else FirstOf(attrs, ["id", "uuid", "name", "display_name", "stack_name"])
  }

  /** The attribute is there and not empty. */
  predicate Given(attrs: map<string, string>, key: string) { key in attrs && attrs[key] != "" }

  lemma FirstNext(attrs: map<string, string>, key: string, rest: seq<string>)
    ensures FirstOf(attrs, [key] + rest) == if Given(attrs, key) then attrs[key] else FirstOf(attrs, rest)
  {
    assert ([key] + rest)[1..] == rest;
  }

  lemma CommonFirst(attrs: map<string, string>)
    ensures FirstOf(attrs, ["id", "uuid", "name", "display_name", "stack_name"])
            == if Given(attrs, "id") then attrs["id"]
               else if Given(attrs, "uuid") then attrs["uuid"]
               else if Given(attrs, "name") then attrs["name"]
               else if Given(attrs, "display_name") then attrs["display_name"]
               else if Given(attrs, "stack_name") then attrs["stack_name"]
               else ""
  {
    FirstNext(attrs, "id", ["uuid", "name", "display_name", "stack_name"]);
    FirstNext(attrs, "uuid", ["name", "display_name", "stack_name"]);
    FirstNext(attrs, "name", ["display_name", "stack_name"]);
    FirstNext(attrs, "display_name", ["stack_name"]);
    FirstNext(attrs, "stack_name", []);
  }

  /** Which attribute tells two objects of a kind apart: the id before any name, an alarm's own id before that, and
      for a cron trigger the name before the id. */
  lemma IdentifierDecides(attrs: map<string, string>, k: KindKey)
    ensures k == ("workflow", "cron_trigger") ==>
              Identifier(attrs, k) == if Given(attrs, "name") then attrs["name"]
                                      else if Given(attrs, "id") then attrs["id"]
                                      else if Given(attrs, "uuid") then attrs["uuid"] else ""
    ensures k == ("alarm", "alarm") && Given(attrs, "alarm_id") ==> Identifier(attrs, k) == attrs["alarm_id"]
    ensures k != ("workflow", "cron_trigger") && !(k == ("alarm", "alarm") && Given(attrs, "alarm_id")) ==>
              Identifier(attrs, k) == if Given(attrs, "id") then attrs["id"]
                                      else if Given(attrs, "uuid") then attrs["uuid"]
                                      else if Given(attrs, "name") then attrs["name"]
                                      else if Given(attrs, "display_name") then attrs["display_name"]
                                      else if Given(attrs, "stack_name") then attrs["stack_name"]
                                      else ""
  {
    CommonFirst(attrs);
    FirstNext(attrs, "name", ["id", "uuid"]);
    FirstNext(attrs, "id", ["uuid"]);
    FirstNext(attrs, "uuid", []);
    FirstNext(attrs, "alarm_id", ["id", "uuid", "name", "display_name", "stack_name"]);
  }

  /** Objects with different ids keep different keys, whatever their names. */
  lemma DifferentIds(a: map<string, string>, b: map<string, string>, k: KindKey)
    requires k !in {("workflow", "cron_trigger"), ("alarm", "alarm")}
    requires Given(a, "id") && Given(b, "id") && a["id"] != b["id"]
    ensures Identifier(a, k) != Identifier(b, k)
  {
    IdentifierDecides(a, k);
    IdentifierDecides(b, k);
  }

  /** command_for: the command line of a resource, given the command words of its kind. None stands
      for DeletePlanError. */
  function CommandFor(words: map<KindKey, seq<string>>, r: Resource): Option<seq<string>> {
    var k := (r.service, r.kind);
    if k == ("object-store", "object") then
      var container, name := FirstOf(r.attrs, ["container", "container_name"]),
          FirstOf(r.attrs, ["name", "id", "object"]);
      if container == "" || name == "" then None else Some(["object", "delete", container, name])
    else if k == ("dns", "recordset") || k == ("dns", "zone_share") then
      var zone := FirstOf(r.attrs, ["zone_id", "zone"]);
      if zone == "" then None
      else if r.kind == "recordset" then Some(["recordset", "delete", zone, r.identifier])
      else Some(["zone", "share", "delete", zone, r.identifier])
    else if k in words then Some(words[k] + [r.identifier])
    else None
  }

  /** The first of these attributes that is given. */
  function FirstGiven(attrs: map<string, string>, a: string, b: string): string {
    if Given(attrs, a) then attrs[a] else if Given(attrs, b) then attrs[b] else ""
  }

  /** What is deleted by the command: an object by container and name, a record set or a zone share by zone and
      identifier, and anything else by its identifier alone; and exactly when there is no command. */
  lemma CommandNames(words: map<KindKey, seq<string>>, r: Resource)
    ensures var k, argv := (r.service, r.kind), CommandFor(words, r);
      if k == ("object-store", "object") then
        var container := FirstGiven(r.attrs, "container", "container_name");
        var name := if Given(r.attrs, "name") then r.attrs["name"] else FirstGiven(r.attrs, "id", "object");
        argv == if container == "" || name == "" then None else Some(["object", "delete", container, name])
      else if k in {("dns", "recordset"), ("dns", "zone_share")} then
        var zone := FirstGiven(r.attrs, "zone_id", "zone");
        && (argv.None? <==> zone == "")
        && (argv.Some? ==> |argv.value| >= 2 && argv.value[|argv.value|-2..] == [zone, r.identifier])
      else
        && (argv.None? <==> k !in words)
        && (argv.Some? ==> argv.value == words[k] + [r.identifier])
  {
    FirstNext(r.attrs, "container", ["container_name"]);
    FirstNext(r.attrs, "container_name", []);
    FirstNext(r.attrs, "name", ["id", "object"]);
    FirstNext(r.attrs, "id", ["object"]);
    FirstNext(r.attrs, "object", []);
    FirstNext(r.attrs, "zone_id", ["zone"]);
    FirstNext(r.attrs, "zone", []);
  }

  // ---------- Reading the report ----------

  /** What one listed object comes to. */
  datatype Fate = Excluded | Refused(issue: Issue) | Entry(resource: Resource)

  predicate ExcludedKind(rules: Rules, k: KindKey) { k == ("identity", "project") || k in rules.coveredChildren }

  function FateOf(rules: Rules, k: KindKey, item: Item): Fate {
    if ExcludedKind(rules, k) then Excluded
    else if k !in rules.phases then Refused(Unsupported(k))
    else if item.NotAMapping? then Refused(ObjectNotAMapping(k))
    else
      var id := Identifier(item.attrs, k);
      if id == "" then Refused(NoIdentifier(k, item.attrs)) else Entry(Resource(k.0, k.1, id, item.attrs))
  }

  /** object `item` is listed under kind k somewhere in the report. */
  ghost predicate ListedObject(rules: Rules, report: Report, k: KindKey, item: Item) {
    exists s, e :: s in report && s.Service? && e in s.kinds && e.objects.Listed? && item in e.objects.items
      && k == (rules.canonicalService(s.name), rules.canonicalResource(e.name))
  }

  /** The two nested loops, as lists: resources in report order and the issues met. */
  datatype Reading = Reading(entries: seq<Resource>, issues: seq<Issue>)

  function Add(a: Reading, b: Reading): Reading { Reading(a.entries + b.entries, a.issues + b.issues) }

  function ReadItems(rules: Rules, k: KindKey, items: seq<Item>, n: nat): Reading
    requires n <= |items|
  {
    if n == 0 then Reading([], [])
    else
      var before := ReadItems(rules, k, items, n - 1);
      match FateOf(rules, k, items[n-1])
      case Excluded => before
      case Refused(i) => Reading(before.entries, before.issues + [i])
      case Entry(r) => Reading(before.entries + [r], before.issues)
  }

  function ReadKind(rules: Rules, service: string, e: KindEntry): Reading {
    var k := (service, rules.canonicalResource(e.name));
    match e.objects
    case Nothing => Reading([], [])
    case NotAList => Reading([], [CollectionNotAList(k)])
    case Listed(items) =>
      if items == [] || ExcludedKind(rules, k) then Reading([], [])
      else if k !in rules.phases then Reading([], [Unsupported(k)])
      else ReadItems(rules, k, items, |items|)
  }

  function ReadKinds(rules: Rules, service: string, kinds: seq<KindEntry>, n: nat): Reading
    requires n <= |kinds|
  {
    if n == 0 then Reading([], [])
    else Add(ReadKinds(rules, service, kinds, n - 1), ReadKind(rules, service, kinds[n-1]))
  }

  function ReadService(rules: Rules, s: ServiceEntry): Reading {
    if s.NotAnObject? then Reading([], [ServiceNotAnObject(s.name)])
    else ReadKinds(rules, rules.canonicalService(s.name), s.kinds, |s.kinds|)
  }

  function ReadReport(rules: Rules, report: Report, n: nat): Reading
    requires n <= |report|
  {
    if n == 0 then Reading([], [])
    else Add(ReadReport(rules, report, n - 1), ReadService(rules, report[n-1]))
  }

  predicate Has(r: Reading, f: Fate) {
    match f
    case Excluded => true
    case Refused(i) => i in r.issues
    case Entry(x) => x in r.entries
  }

  lemma {:induction false} ItemsRead(rules: Rules, k: KindKey, items: seq<Item>, n: nat, i: nat)
    requires i < n <= |items|
    ensures Has(ReadItems(rules, k, items, n), FateOf(rules, k, items[i]))
  {
    if i < n - 1 { ItemsRead(rules, k, items, n - 1, i); }
  }

  lemma {:induction false} ItemsOnly(rules: Rules, k: KindKey, items: seq<Item>, n: nat, r: Resource)
    requires n <= |items| && r in ReadItems(rules, k, items, n).entries
    ensures exists item :: item in items && FateOf(rules, k, item) == Entry(r)
  {
    if FateOf(rules, k, items[n-1]) != Entry(r) { ItemsOnly(rules, k, items, n - 1, r); }
  }

  lemma {:induction false} KindsRead(rules: Rules, service: string, kinds: seq<KindEntry>, n: nat, i: nat, f: Fate)
    requires i < n <= |kinds| && Has(ReadKind(rules, service, kinds[i]), f)
    ensures Has(ReadKinds(rules, service, kinds, n), f)
  {
    if i < n - 1 { KindsRead(rules, service, kinds, n - 1, i, f); }
  }

  lemma {:induction false} ReportRead(rules: Rules, report: Report, n: nat, i: nat, f: Fate)
    requires i < n <= |report| && Has(ReadService(rules, report[i]), f)
    ensures Has(ReadReport(rules, report, n), f)
  {
    if i < n - 1 { ReportRead(rules, report, n - 1, i, f); }
  }

  /** Every listed object is read as what it is. */
  lemma ObjectRead(rules: Rules, report: Report, k: KindKey, item: Item)
    requires ListedObject(rules, report, k, item)
    ensures Has(ReadReport(rules, report, |report|), FateOf(rules, k, item))
  {
    var s, e :| s in report && s.Service? && e in s.kinds && e.objects.Listed? && item in e.objects.items
      && k == (rules.canonicalService(s.name), rules.canonicalResource(e.name));
    var si :| 0 <= si < |report| && report[si] == s;
    var ei :| 0 <= ei < |s.kinds| && s.kinds[ei] == e;
    var i :| 0 <= i < |e.objects.items| && e.objects.items[i] == item;
    var f := FateOf(rules, k, item);
    if !ExcludedKind(rules, k) && k in rules.phases { ItemsRead(rules, k, e.objects.items, |e.objects.items|, i); }
    KindsRead(rules, k.0, s.kinds, |s.kinds|, ei, f);
    ReportRead(rules, report, |report|, si, f);
  }

  lemma {:induction false} KindsOnly(rules: Rules, s: ServiceEntry, n: nat, r: Resource)
    requires s.Service? && n <= |s.kinds| && r in ReadKinds(rules, rules.canonicalService(s.name), s.kinds, n).entries
    ensures exists k, item :: ListedObject(rules, [s], k, item) && FateOf(rules, k, item) == Entry(r)
  {
    var service, e := rules.canonicalService(s.name), s.kinds[n-1];
    if r in ReadKind(rules, service, e).entries {
      var k := (service, rules.canonicalResource(e.name));
      ItemsOnly(rules, k, e.objects.items, |e.objects.items|, r);
      var item :| item in e.objects.items && FateOf(rules, k, item) == Entry(r);
      assert s in [s] && e in s.kinds;
      assert ListedObject(rules, [s], k, item);
    } else {
      KindsOnly(rules, s, n - 1, r);
    }
  }

  /** Nothing is planned that the report does not list. */
  lemma {:induction false} ReadOnlyListed(rules: Rules, report: Report, n: nat, r: Resource)
    requires n <= |report| && r in ReadReport(rules, report, n).entries
    ensures exists k, item :: ListedObject(rules, report, k, item) && FateOf(rules, k, item) == Entry(r)
  {
    if r in ReadService(rules, report[n-1]).entries {
      var s := report[n-1];
      KindsOnly(rules, s, |s.kinds|, r);
      var k, item :| ListedObject(rules, [s], k, item) && FateOf(rules, k, item) == Entry(r);
      assert ListedObject(rules, report, k, item);
    } else {
      ReadOnlyListed(rules, report, n - 1, r);
    }
  }

  // ---------- Why an issue is reported ----------

  ghost predicate BadService(report: Report, i: Issue) {
    exists s :: s in report && s.NotAnObject? && i == ServiceNotAnObject(s.name)
  }

  ghost predicate BadCollection(rules: Rules, report: Report, i: Issue) {
    exists s, e :: s in report && s.Service? && e in s.kinds && e.objects.NotAList?
      && i == CollectionNotAList((rules.canonicalService(s.name), rules.canonicalResource(e.name)))
  }

  ghost predicate BadObject(rules: Rules, report: Report, i: Issue) {
    exists k, item :: ListedObject(rules, report, k, item) && FateOf(rules, k, item) == Refused(i)
  }

  lemma {:induction false} ItemCause(rules: Rules, k: KindKey, items: seq<Item>, n: nat, i: Issue)
    requires n <= |items| && i in ReadItems(rules, k, items, n).issues
    ensures exists item :: item in items && FateOf(rules, k, item) == Refused(i)
  {
    if FateOf(rules, k, items[n-1]) != Refused(i) { ItemCause(rules, k, items, n - 1, i); }
  }

  lemma KindCause(rules: Rules, s: ServiceEntry, e: KindEntry, i: Issue)
    requires s.Service? && e in s.kinds && i in ReadKind(rules, rules.canonicalService(s.name), e).issues
    ensures BadCollection(rules, [s], i) || BadObject(rules, [s], i)
  {
    var k := (rules.canonicalService(s.name), rules.canonicalResource(e.name));
    assert s in [s];
    if e.objects.Listed? {
      var items := e.objects.items;
      var item := items[0];
      if k in rules.phases {
        ItemCause(rules, k, items, |items|, i);
        item :| item in items && FateOf(rules, k, item) == Refused(i);
      }
      assert ListedObject(rules, [s], k, item) && FateOf(rules, k, item) == Refused(i);
    }
  }

  lemma {:induction false} ServiceCause(rules: Rules, s: ServiceEntry, n: nat, i: Issue)
    requires s.Service? && n <= |s.kinds|
    requires i in ReadKinds(rules, rules.canonicalService(s.name), s.kinds, n).issues
    ensures BadCollection(rules, [s], i) || BadObject(rules, [s], i)
  {
    if i in ReadKind(rules, rules.canonicalService(s.name), s.kinds[n-1]).issues {
      KindCause(rules, s, s.kinds[n-1], i);
    } else {
      ServiceCause(rules, s, n - 1, i);
    }
  }

  /** Reading reports an issue only for a service that is no object, a collection that is no list, or a listed object
      that is refused. */
  lemma {:induction false} IssueHasCause(rules: Rules, report: Report, n: nat, i: Issue)
    requires n <= |report| && i in ReadReport(rules, report, n).issues
    ensures BadService(report, i) || BadCollection(rules, report, i) || BadObject(rules, report, i)
  {
    var s := report[n-1];
    if i in ReadService(rules, s).issues {
      if s.Service? {
        ServiceCause(rules, s, |s.kinds|, i);
        CauseInReport(rules, report, s, i);
      }
    } else {
      IssueHasCause(rules, report, n - 1, i);
    }
  }

  lemma CauseInReport(rules: Rules, report: Report, s: ServiceEntry, i: Issue)
    requires s in report && (BadCollection(rules, [s], i) || BadObject(rules, [s], i))
    ensures BadCollection(rules, report, i) || BadObject(rules, report, i)
  {
    if BadObject(rules, [s], i) {
      var k, item :| ListedObject(rules, [s], k, item) && FateOf(rules, k, item) == Refused(i);
      assert ListedObject(rules, report, k, item);
    }
  }
}
