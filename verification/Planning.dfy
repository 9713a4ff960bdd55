// The planner itself, and what a plan accounts for
// (delete-project-resources.py, _resource_entries and plan_deletions).

module Planning {
  import opened DeletionPlan
  import opened Options
  import opened PlanOrder

  /** dict.setdefault: the first resource of every key, in order. */
  function Dedup(entries: seq<Resource>, n: nat): seq<Resource>
    requires n <= |entries|
  {
    if n == 0 then []
    else
      var before := Dedup(entries, n - 1);
      if HasKey(before, KeyOf(entries[n-1])) then before else before + [entries[n-1]]
  }

  predicate HasKey(rs: seq<Resource>, k: Key) { exists i :: 0 <= i < |rs| && KeyOf(rs[i]) == k }

  predicate ResourceKeysDistinct(rs: seq<Resource>) {
    forall i, j :: 0 <= i < j < |rs| ==> KeyOf(rs[i]) != KeyOf(rs[j])
  }

  lemma {:induction false} DedupExact(entries: seq<Resource>, n: nat)
    requires n <= |entries|
    ensures var d := Dedup(entries, n);
            && ResourceKeysDistinct(d)
            && (forall r :: r in d ==> r in entries)
            && (forall i :: 0 <= i < n ==> HasKey(d, KeyOf(entries[i])))
  {
    if n > 0 {
      DedupExact(entries, n - 1);
      var before, d, last := Dedup(entries, n - 1), Dedup(entries, n), entries[n-1];
      forall i | 0 <= i < n ensures HasKey(d, KeyOf(entries[i])) {
        if i < n - 1 {
          var j :| 0 <= j < |before| && KeyOf(before[j]) == KeyOf(entries[i]);
          assert d[j] == before[j];
        } else if !HasKey(before, KeyOf(last)) {
          assert d[|before|] == last;
        }
      }
    }
  }

  /** r is among the first n entries, and no earlier one has its key. */
  ghost predicate FirstOfKey(entries: seq<Resource>, n: nat, r: Resource)
    requires n <= |entries|
  {
    exists i :: 0 <= i < n && entries[i] == r && forall j :: 0 <= j < i ==> KeyOf(entries[j]) != KeyOf(r)
  }

  /** Kept is exactly the first resource of every key. */
  lemma {:induction false} DedupFirst(entries: seq<Resource>, n: nat, r: Resource)
    requires n <= |entries|
    ensures r in Dedup(entries, n) <==> FirstOfKey(entries, n, r)
  {
    if n > 0 {
      DedupFirst(entries, n - 1, r);
      SeenIff(entries, n - 1, KeyOf(entries[n-1]));
      FirstNext(entries, n, r);
    }
  }

  /** A key is kept exactly when it has come before. */
  lemma SeenIff(entries: seq<Resource>, n: nat, k: Key)
    requires n <= |entries|
    ensures HasKey(Dedup(entries, n), k) <==> exists j :: 0 <= j < n && KeyOf(entries[j]) == k
  {
    DedupExact(entries, n);
    var before := Dedup(entries, n);
    if HasKey(before, k) {
      var i :| 0 <= i < |before| && KeyOf(before[i]) == k;
      DedupWithin(entries, n, before[i]);
      var j :| 0 <= j < n && entries[..n][j] == before[i];
      assert KeyOf(entries[j]) == k;
    }
  }

  lemma FirstNext(entries: seq<Resource>, n: nat, r: Resource)
    requires 0 < n <= |entries|
    ensures FirstOfKey(entries, n, r) <==>
            FirstOfKey(entries, n - 1, r)
            || (r == entries[n-1] && forall j :: 0 <= j < n - 1 ==> KeyOf(entries[j]) != KeyOf(r))
  {
    if FirstOfKey(entries, n - 1, r) {
      var i :| 0 <= i < n - 1 && entries[i] == r && forall j :: 0 <= j < i ==> KeyOf(entries[j]) != KeyOf(r);
      assert 0 <= i < n && entries[i] == r;
    }
  }

  lemma {:induction false} DedupWithin(entries: seq<Resource>, n: nat, r: Resource)
    requires n <= |entries| && r in Dedup(entries, n)
    ensures r in entries[..n]
  {
    assert entries[..n] == if n == 0 then [] else entries[..n-1] + [entries[n-1]];
    if r in Dedup(entries, n - 1) { DedupWithin(entries, n - 1, r); }
  }

  /** Operations and command issues for the first n resources. */
  function Ops(rules: Rules, rs: seq<Resource>, n: nat): seq<Operation>
    requires n <= |rs| && HavePhases(rules, rs)
  {
    if n == 0 then []
    else
      var r := rs[n-1];
      var argv := rules.command(r);
      Ops(rules, rs, n - 1)
        + (if argv.None? then [] else [Operation(rules.phases[(r.service, r.kind)], r, argv.value)])
  }

  function CommandIssues(rules: Rules, rs: seq<Resource>, n: nat): seq<Issue>
    requires n <= |rs|
  {
    if n == 0 then []
    else CommandIssues(rules, rs, n - 1) + (if rules.command(rs[n-1]).None? then [NoCommand(rs[n-1])] else [])
  }

  /** The operation a resource stands for, if it has a command. */
  function OperationFor(rules: Rules, r: Resource): Option<Operation>
    requires (r.service, r.kind) in rules.phases
  {
    var argv := rules.command(r);
    if argv.None? then None else Some(Operation(rules.phases[(r.service, r.kind)], r, argv.value))
  }

  predicate HavePhases(rules: Rules, rs: seq<Resource>) {
    forall r :: r in rs ==> (r.service, r.kind) in rules.phases
  }

  lemma {:induction false} OpsAre(rules: Rules, rs: seq<Resource>, n: nat, op: Operation)
    requires n <= |rs| && HavePhases(rules, rs)
    ensures op in Ops(rules, rs, n) <==> exists i :: 0 <= i < n && OperationFor(rules, rs[i]) == Some(op)
  {
    if n > 0 {
      OpsAre(rules, rs, n - 1, op);
      if op in Ops(rules, rs, n - 1) {
        var i :| 0 <= i < n - 1 && OperationFor(rules, rs[i]) == Some(op);
      }
    }
  }

  lemma {:induction false} OpsKeysDistinct(rules: Rules, rs: seq<Resource>, n: nat)
    requires n <= |rs| && HavePhases(rules, rs) && ResourceKeysDistinct(rs)
    ensures KeysDistinct(Ops(rules, rs, n))
  {
    if n > 0 {
      OpsKeysDistinct(rules, rs, n - 1);
      var before := Ops(rules, rs, n - 1);
      forall i | 0 <= i < |before| ensures KeyOf(before[i].resource) != KeyOf(rs[n-1]) {
        OpsAre(rules, rs, n - 1, before[i]);
      }
    }
  }

  lemma {:induction false} IssuesAre(rules: Rules, rs: seq<Resource>, n: nat)
    requires n <= |rs|
    ensures forall i :: 0 <= i < n && rules.command(rs[i]).None? ==> NoCommand(rs[i]) in CommandIssues(rules, rs, n)
  {
    if n > 0 { IssuesAre(rules, rs, n - 1); }
  }

  lemma {:induction false} IssuesOnly(rules: Rules, rs: seq<Resource>, n: nat, r: Resource)
    requires n <= |rs| && NoCommand(r) in CommandIssues(rules, rs, n)
    ensures r in rs && rules.command(r).None?
  {
    if NoCommand(r) in CommandIssues(rules, rs, n - 1) { IssuesOnly(rules, rs, n - 1, r); }
  }

  /** The operations for the resources read, sorted; and the resources without a command. */
  function PlanFrom(rules: Rules, entries: seq<Resource>): seq<Operation>
    requires HavePhases(rules, entries)
  {
    DedupExact(entries, |entries|);
    var rs := Dedup(entries, |entries|);
    Sort(Ops(rules, rs, |rs|))
  }

  function IssuesFrom(rules: Rules, entries: seq<Resource>): seq<Issue> {
    var rs := Dedup(entries, |entries|);
    CommandIssues(rules, rs, |rs|)
  }

  function Entries(rules: Rules, report: Report): (entries: seq<Resource>)
    ensures HavePhases(rules, entries)
  {
    var entries := ReadReport(rules, report, |report|).entries;
    assert HavePhases(rules, entries) by {
      forall r | r in entries ensures (r.service, r.kind) in rules.phases {
        ReadOnlyListed(rules, report, |report|, r);
      }
    }
    entries
  }

  /** The deletion plan of a report. */
  function Plan(rules: Rules, report: Report): seq<Operation> { PlanFrom(rules, Entries(rules, report)) }

  function PlanIssues(rules: Rules, report: Report): seq<Issue> {
    ReadReport(rules, report, |report|).issues + IssuesFrom(rules, Entries(rules, report))
  }

  // ---------- The code ----------

  method ResourceEntries(rules: Rules, report: Report) returns (resources: seq<Resource>, issues: seq<Issue>)
    ensures var reading := ReadReport(rules, report, |report|);
            resources == Dedup(reading.entries, |reading.entries|) && issues == reading.issues
    ensures HavePhases(rules, resources)
  {
    var entries: seq<Resource> := [];
    issues := [];
    for s := 0 to |report|
      invariant Reading(entries, issues) == ReadReport(rules, report, s)
    {
      var reading := ReadServiceEntry(rules, report[s]);
      entries, issues := entries + reading.entries, issues + reading.issues;
    }
    resources := [];
    for n := 0 to |entries|
      invariant resources == Dedup(entries, n)
    {
      if !HasKey(resources, KeyOf(entries[n])) { resources := resources + [entries[n]]; }
    }
    DedupExact(entries, |entries|);
    assert entries == Entries(rules, report);
  }

  method ReadServiceEntry(rules: Rules, s: ServiceEntry) returns (r: Reading)
    ensures r == ReadService(rules, s)
  {
    if s.NotAnObject? { return Reading([], [ServiceNotAnObject(s.name)]); }
    var service := rules.canonicalService(s.name);
    r := Reading([], []);
    for e := 0 to |s.kinds|
      invariant r == ReadKinds(rules, service, s.kinds, e)
    {
      var one := ReadKindEntry(rules, service, s.kinds[e]);
      r := Add(r, one);
    }
  }

  method ReadKindEntry(rules: Rules, service: string, e: KindEntry) returns (r: Reading)
    ensures r == ReadKind(rules, service, e)
  {
    var k := (service, rules.canonicalResource(e.name));
    r := Reading([], []);
    if e.objects.Nothing? || (e.objects.Listed? && e.objects.items == []) { return; }
    if e.objects.NotAList? { return Reading([], [CollectionNotAList(k)]); }
    if k == ("identity", "project") || k in rules.coveredChildren { return; }
    if k !in rules.phases { return Reading([], [Unsupported(k)]); }
    for i := 0 to |e.objects.items|
      invariant r == ReadItems(rules, k, e.objects.items, i)
    {
      var item := e.objects.items[i];
      if item.NotAMapping? {
        r := Reading(r.entries, r.issues + [ObjectNotAMapping(k)]);
      } else {
        var id := Identifier(item.attrs, k);
        if id == "" {
          r := Reading(r.entries, r.issues + [NoIdentifier(k, item.attrs)]);
        } else {
          r := Reading(r.entries + [Resource(k.0, k.1, id, item.attrs)], r.issues);
        }
      }
    }
  }

  method PlanDeletions(rules: Rules, report: Report) returns (operations: seq<Operation>, issues: set<Issue>)
    ensures operations == Plan(rules, report)
    ensures issues == set i | i in PlanIssues(rules, report)
  {
    var resources, readIssues := ResourceEntries(rules, report);
    operations := [];
    var all := readIssues;
    for n := 0 to |resources|
      invariant operations == Ops(rules, resources, n)
      invariant all == readIssues + CommandIssues(rules, resources, n)
    {
      var r := resources[n];
      var argv := rules.command(r);
      if argv.None? {
        all := all + [NoCommand(r)];
      } else {
        operations := operations + [Operation(rules.phases[(r.service, r.kind)], r, argv.value)];
      }
    }
    operations := Sort(operations);
    issues := set i | i in all;
  }

  // ---------- Accounting ----------

  /** op is the one operation of the plan with key k. */
  ghost predicate OnlyOperation(plan: seq<Operation>, op: Operation, k: Key) {
    op in plan && KeyOf(op.resource) == k && forall x :: x in plan && KeyOf(x.resource) == k ==> x == op
  }

  ghost predicate PlannedOnce(plan: seq<Operation>, k: Key) { exists op :: OnlyOperation(plan, op, k) }

  ghost predicate CommandMissing(issues: seq<Issue>, k: Key) {
    exists i :: 0 <= i < |issues| && issues[i].NoCommand? && KeyOf(issues[i].resource) == k
  }

  /** op comes from resource rs[i] for some i. */
  ghost predicate From(rules: Rules, rs: seq<Resource>, op: Operation)
    requires HavePhases(rules, rs)
  {
    exists i :: 0 <= i < |rs| && OperationFor(rules, rs[i]) == Some(op)
  }

  /** A plan is strictly sorted, has one operation per key, and holds exactly the operations of the
      first resources of every key. */
  lemma PlanExact(rules: Rules, entries: seq<Resource>)
    requires HavePhases(rules, entries)
    ensures var plan, rs := PlanFrom(rules, entries), Dedup(entries, |entries|);
            && StrictlySorted(plan) && KeysDistinct(plan) && HavePhases(rules, rs)
            && (forall op :: op in plan <==> From(rules, rs, op))
  {
    DedupExact(entries, |entries|);
    var rs := Dedup(entries, |entries|);
    OpsKeysDistinct(rules, rs, |rs|);
    forall op ensures op in Ops(rules, rs, |rs|) <==> From(rules, rs, op) { OpsAre(rules, rs, |rs|, op); }
    SortSorted(Ops(rules, rs, |rs|));
    var plan := PlanFrom(rules, entries);
    forall i, j | 0 <= i < j < |plan| ensures KeyOf(plan[i].resource) != KeyOf(plan[j].resource) {
      BeforeTotal(plan[i], plan[j]);
      SameKeySameOperation(rules, rs, plan[i], plan[j]);
    }
  }

  lemma SameKeySameOperation(rules: Rules, rs: seq<Resource>, a: Operation, b: Operation)
    requires ResourceKeysDistinct(rs) && HavePhases(rules, rs) && From(rules, rs, a) && From(rules, rs, b)
    ensures KeyOf(a.resource) == KeyOf(b.resource) ==> a == b
  {
    var i :| 0 <= i < |rs| && OperationFor(rules, rs[i]) == Some(a);
    var j :| 0 <= j < |rs| && OperationFor(rules, rs[j]) == Some(b);
  }

  /** A resource that was read has exactly one operation for its key, unless the first resource of that
      key has no command. */
  lemma EntryPlanned(rules: Rules, entries: seq<Resource>, r: Resource)
    requires HavePhases(rules, entries) && r in entries
    ensures PlannedOnce(PlanFrom(rules, entries), KeyOf(r)) || CommandMissing(IssuesFrom(rules, entries), KeyOf(r))
  {
    PlanExact(rules, entries);
    DedupExact(entries, |entries|);
    var rs, plan := Dedup(entries, |entries|), PlanFrom(rules, entries);
    var e :| 0 <= e < |entries| && entries[e] == r;
    var i :| 0 <= i < |rs| && KeyOf(rs[i]) == KeyOf(r);
    IssuesAre(rules, rs, |rs|);
    var op := OperationFor(rules, rs[i]);
    if op.Some? {
      assert From(rules, rs, op.value);
      forall x | x in plan && KeyOf(x.resource) == KeyOf(r) ensures x == op.value {
        SameKeySameOperation(rules, rs, x, op.value);
      }
      assert OnlyOperation(plan, op.value, KeyOf(r));
    } else {
      var issues := IssuesFrom(rules, entries);
      var x :| 0 <= x < |issues| && issues[x] == NoCommand(rs[i]);
      assert CommandMissing(issues, KeyOf(r));
    }
  }

  /** Every object of the report is excluded on purpose, or reported as an issue, or has exactly one
      operation for its key in the plan. */
  lemma Accounting(rules: Rules, report: Report, k: KindKey, item: Item)
    requires ListedObject(rules, report, k, item)
    ensures match FateOf(rules, k, item)
            case Excluded => forall op :: op in Plan(rules, report) ==> (op.resource.service, op.resource.kind) != k
            case Refused(i) => i in PlanIssues(rules, report)
            case Entry(r) =>
              PlannedOnce(Plan(rules, report), KeyOf(r)) || CommandMissing(PlanIssues(rules, report), KeyOf(r))
  {
    ObjectRead(rules, report, k, item);
    match FateOf(rules, k, item)
    case Excluded =>
      forall op | op in Plan(rules, report) ensures (op.resource.service, op.resource.kind) != k {
        PlannedIsListed(rules, report, op);
      }
    case Refused(_) =>
    case Entry(r) =>
      var entries := Entries(rules, report);
      assert r in entries;
      EntryPlanned(rules, entries, r);
      if CommandMissing(IssuesFrom(rules, entries), KeyOf(r)) {
        CommandMissingAfter(ReadReport(rules, report, |report|).issues, IssuesFrom(rules, entries), KeyOf(r));
      }
  }

  /** The issue is about resources of this kind. */
  predicate AboutKind(i: Issue, k: KindKey) {
    match i
    case ServiceNotAnObject(_) => false
    case CollectionNotAList(kind) => kind == k
    case Unsupported(kind) => kind == k
    case ObjectNotAMapping(kind) => kind == k
    case NoIdentifier(kind, _) => kind == k
    case NoCommand(r) => (r.service, r.kind) == k
  }

  /** Only the project itself and what goes with its parent is passed over in silence: any other listed object has one
      operation for its key, or an issue about its kind. */
  lemma NothingSilent(rules: Rules, report: Report, k: KindKey, item: Item)
    requires ListedObject(rules, report, k, item)
    requires k != ("identity", "project") && k !in rules.coveredChildren
    ensures || (item.Item? && PlannedOnce(Plan(rules, report), (k.0, k.1, Identifier(item.attrs, k))))
            || exists i :: i in PlanIssues(rules, report) && AboutKind(i, k)
  {
    Accounting(rules, report, k, item);
    var issues := PlanIssues(rules, report);
    match FateOf(rules, k, item)
    case Refused(i) => assert i in issues && AboutKind(i, k);
    case Entry(r) =>
      if CommandMissing(issues, KeyOf(r)) {
        var i :| 0 <= i < |issues| && issues[i].NoCommand? && KeyOf(issues[i].resource) == KeyOf(r);
        assert issues[i] in issues && AboutKind(issues[i], k);
      }
  }

  /** Those are never planned. */
  lemma ExcludedNeverPlanned(rules: Rules, report: Report, op: Operation)
    requires op in Plan(rules, report)
    ensures (op.resource.service, op.resource.kind) != ("identity", "project")
    ensures (op.resource.service, op.resource.kind) !in rules.coveredChildren
    ensures (op.resource.service, op.resource.kind) in rules.phases
  {
    PlannedIsListed(rules, report, op);
  }

  /** Reading a report finds no missing command; that is left to the planning. */
  predicate NothingUnplanned(issues: seq<Issue>) { forall i :: i in issues ==> !i.NoCommand? }

  lemma {:induction false} ItemsUnplanned(rules: Rules, k: KindKey, items: seq<Item>, n: nat)
    requires n <= |items|
    ensures NothingUnplanned(ReadItems(rules, k, items, n).issues)
  {
    if n > 0 { ItemsUnplanned(rules, k, items, n - 1); }
  }

  lemma {:induction false} KindsUnplanned(rules: Rules, service: string, kinds: seq<KindEntry>, n: nat)
    requires n <= |kinds|
    ensures NothingUnplanned(ReadKinds(rules, service, kinds, n).issues)
  {
    if n > 0 {
      KindsUnplanned(rules, service, kinds, n - 1);
      var e := kinds[n-1];
      if e.objects.Listed? {
        ItemsUnplanned(rules, (service, rules.canonicalResource(e.name)), e.objects.items, |e.objects.items|);
      }
    }
  }

  lemma {:induction false} ReportUnplanned(rules: Rules, report: Report, n: nat)
    requires n <= |report|
    ensures NothingUnplanned(ReadReport(rules, report, n).issues)
  {
    if n > 0 {
      ReportUnplanned(rules, report, n - 1);
      var s := report[n-1];
      if s.Service? { KindsUnplanned(rules, rules.canonicalService(s.name), s.kinds, |s.kinds|); }
    }
  }

  /** A key with an operation has no missing command: of each key at most one of the two is reported. */
  lemma PlannedHasCommand(rules: Rules, report: Report, k: Key)
    requires PlannedOnce(Plan(rules, report), k)
    ensures !CommandMissing(PlanIssues(rules, report), k)
  {
    var entries, issues := Entries(rules, report), PlanIssues(rules, report);
    var rs := Dedup(entries, |entries|);
    DedupExact(entries, |entries|);
    PlanExact(rules, entries);
    ReportUnplanned(rules, report, |report|);
    var op :| OnlyOperation(Plan(rules, report), op, k);
    var j :| 0 <= j < |rs| && OperationFor(rules, rs[j]) == Some(op);
    forall i | 0 <= i < |issues| && issues[i].NoCommand? ensures KeyOf(issues[i].resource) != k {
      assert issues[i] in issues;
      MissingIsAnother(rules, entries, issues[i].resource, rs[j]);
    }
  }

  lemma MissingIsAnother(rules: Rules, entries: seq<Resource>, r: Resource, planned: Resource)
    requires NoCommand(r) in IssuesFrom(rules, entries)
    requires planned in Dedup(entries, |entries|) && rules.command(planned).Some?
    ensures KeyOf(r) != KeyOf(planned)
  {
    var rs := Dedup(entries, |entries|);
    IssuesOnly(rules, rs, |rs|, r);
    DedupExact(entries, |entries|);
  }

  /** Without issues nothing is missed and nothing is added: the keys of the plan are exactly those of the listed
      objects that are not excluded. */
  lemma CleanPlanKeys(rules: Rules, report: Report, key: Key)
    requires PlanIssues(rules, report) == []
    ensures (exists op :: op in Plan(rules, report) && KeyOf(op.resource) == key)
            <==> exists k, item :: ListedObject(rules, report, k, item) && !ExcludedKind(rules, k) && item.Item?
                                   && key == (k.0, k.1, Identifier(item.attrs, k))
  {
    if op :| op in Plan(rules, report) && KeyOf(op.resource) == key {
      PlannedIsListed(rules, report, op);
    }
    if k, item :| ListedObject(rules, report, k, item) && !ExcludedKind(rules, k) && item.Item?
                  && key == (k.0, k.1, Identifier(item.attrs, k)) {
      Accounting(rules, report, k, item);
    }
  }

  lemma CommandMissingAfter(a: seq<Issue>, b: seq<Issue>, k: Key)
    requires CommandMissing(b, k)
    ensures CommandMissing(a + b, k)
  {
    var i :| 0 <= i < |b| && b[i].NoCommand? && KeyOf(b[i].resource) == k;
    assert (a + b)[|a| + i] == b[i];
  }

  /** Nothing is deleted that the report does not list. */
  lemma PlannedIsListed(rules: Rules, report: Report, op: Operation)
    requires op in Plan(rules, report)
    ensures exists k, item :: ListedObject(rules, report, k, item) && FateOf(rules, k, item) == Entry(op.resource)
  {
    var entries := Entries(rules, report);
    PlanExact(rules, entries);
    DedupExact(entries, |entries|);
    ReadOnlyListed(rules, report, |report|, op.resource);
  }

  ghost predicate KeysAgree(rs: seq<Resource>) {
    forall x, y :: (x in rs && y in rs && KeyOf(x) == KeyOf(y)) ==> x == y
  }

  /** When objects that share a key agree, the plan holds exactly the operations of the resources read. */
  lemma PlanIff(rules: Rules, entries: seq<Resource>, op: Operation)
    requires HavePhases(rules, entries) && KeysAgree(entries)
    ensures op in PlanFrom(rules, entries) <==> exists r :: r in entries && OperationFor(rules, r) == Some(op)
  {
    PlanExact(rules, entries);
    var rs := Dedup(entries, |entries|);
    forall r ensures r in rs <==> r in entries { AgreeingIsKept(entries, r); }
    if From(rules, rs, op) {
      var i :| 0 <= i < |rs| && OperationFor(rules, rs[i]) == Some(op);
      assert rs[i] in rs;
    }
    if r :| r in entries && OperationFor(rules, r) == Some(op) {
      var i :| 0 <= i < |rs| && rs[i] == r;
    }
  }

  lemma AgreeingIsKept(entries: seq<Resource>, r: Resource)
    requires KeysAgree(entries)
    ensures r in Dedup(entries, |entries|) <==> r in entries
  {
    DedupExact(entries, |entries|);
    var rs := Dedup(entries, |entries|);
    if r in entries {
      var e :| 0 <= e < |entries| && entries[e] == r;
      var i :| 0 <= i < |rs| && KeyOf(rs[i]) == KeyOf(r);
      assert rs[i] in rs;
    }
  }

  // ---------- Reordered reports ----------

  /** Two reports that list the same objects, whatever the order, give the same plan, provided objects
      that share a key agree. */
  lemma OrderIndependent(rules: Rules, r1: Report, r2: Report)
    requires forall k, item :: ListedObject(rules, r1, k, item) <==> ListedObject(rules, r2, k, item)
    requires KeysAgree(Entries(rules, r1))
    ensures Plan(rules, r1) == Plan(rules, r2)
  {
    forall x ensures x in Entries(rules, r1) <==> x in Entries(rules, r2) {
      if x in Entries(rules, r1) { EntryKept(rules, r1, r2, x); }
      if x in Entries(rules, r2) { EntryKept(rules, r2, r1, x); }
    }
    SameEntriesSamePlan(rules, Entries(rules, r1), Entries(rules, r2));
  }

  lemma EntryKept(rules: Rules, r1: Report, r2: Report, x: Resource)
    requires forall k, item :: ListedObject(rules, r1, k, item) ==> ListedObject(rules, r2, k, item)
    requires x in Entries(rules, r1)
    ensures x in Entries(rules, r2)
  {
    ReadOnlyListed(rules, r1, |r1|, x);
    var k, item :| ListedObject(rules, r1, k, item) && FateOf(rules, k, item) == Entry(x);
    ObjectRead(rules, r2, k, item);
  }

  /** The same collection with its objects in another order. */
  ghost predicate SameKind(e: KindEntry, f: KindEntry) {
    && e.name == f.name
    && (e.objects == f.objects
        || (e.objects.Listed? && f.objects.Listed? && multiset(e.objects.items) == multiset(f.objects.items)))
  }

  ghost predicate SameService(s: ServiceEntry, t: ServiceEntry) {
    || s == t
    || (s.Service? && t.Service? && s.name == t.name
        && (forall e :: e in s.kinds ==> exists f :: f in t.kinds && SameKind(e, f)))
  }

  /** Every service of r1 is in r2, with its kinds and their objects in any order. */
  ghost predicate Within(r1: Report, r2: Report) {
    forall s :: s in r1 ==> exists t :: t in r2 && SameService(s, t)
  }

  lemma WithinLists(rules: Rules, r1: Report, r2: Report, k: KindKey, item: Item)
    requires Within(r1, r2) && ListedObject(rules, r1, k, item)
    ensures ListedObject(rules, r2, k, item)
  {
    var s, e :| s in r1 && s.Service? && e in s.kinds && e.objects.Listed? && item in e.objects.items
      && k == (rules.canonicalService(s.name), rules.canonicalResource(e.name));
    var t :| t in r2 && SameService(s, t);
    assert SameKind(e, e);
    var f :| f in t.kinds && SameKind(e, f);
    SameKindLists(e, f, item);
  }

  lemma SameKindLists(e: KindEntry, f: KindEntry, item: Item)
    requires SameKind(e, f) && e.objects.Listed? && item in e.objects.items
    ensures f.objects.Listed? && item in f.objects.items
  {
    assert f.objects.Listed?;
    assert item in multiset(e.objects.items) && item in multiset(f.objects.items);
  }

  /** Services, kinds and objects may come in any order. */
  lemma ReorderedReport(rules: Rules, r1: Report, r2: Report)
    requires Within(r1, r2) && Within(r2, r1) && KeysAgree(Entries(rules, r1))
    ensures Plan(rules, r1) == Plan(rules, r2)
  {
    forall k, item ensures ListedObject(rules, r1, k, item) <==> ListedObject(rules, r2, k, item) {
      if ListedObject(rules, r1, k, item) { WithinLists(rules, r1, r2, k, item); }
      if ListedObject(rules, r2, k, item) { WithinLists(rules, r2, r1, k, item); }
    }
    OrderIndependent(rules, r1, r2);
  }

  lemma PermutedReport(rules: Rules, r1: Report, r2: Report)
    requires multiset(r1) == multiset(r2) && KeysAgree(Entries(rules, r1))
    ensures Plan(rules, r1) == Plan(rules, r2)
  {
    forall s | s in r1 ensures exists t :: t in r2 && SameService(s, t) {
      assert s in multiset(r1);
      assert s in r2 && SameService(s, s);
    }
    forall s | s in r2 ensures exists t :: t in r1 && SameService(s, t) {
      assert s in multiset(r2);
      assert s in r1 && SameService(s, s);
    }
    ReorderedReport(rules, r1, r2);
  }

  lemma SameEntriesSamePlan(rules: Rules, e1: seq<Resource>, e2: seq<Resource>)
    requires HavePhases(rules, e1) && HavePhases(rules, e2) && KeysAgree(e1) && forall x :: x in e1 <==> x in e2
    ensures PlanFrom(rules, e1) == PlanFrom(rules, e2)
  {
    PlanExact(rules, e1);
    PlanExact(rules, e2);
    forall op ensures op in PlanFrom(rules, e1) <==> op in PlanFrom(rules, e2) {
      PlanIff(rules, e1, op);
      PlanIff(rules, e2, op);
    }
    SortedUnique(PlanFrom(rules, e1), PlanFrom(rules, e2));
  }

  // ---------- When every object gets its own operation ----------

  /** Every resource that has a command has its own operation in the plan. */
  ghost predicate OwnOperations(rules: Rules, entries: seq<Resource>)
    requires HavePhases(rules, entries)
  {
    forall r :: r in entries && OperationFor(rules, r).Some?
      ==> OperationFor(rules, r).value in PlanFrom(rules, entries)
  }

  lemma OwnOperationIff(rules: Rules, entries: seq<Resource>, r: Resource)
    requires HavePhases(rules, entries) && r in entries && OperationFor(rules, r).Some?
    ensures OperationFor(rules, r).value in PlanFrom(rules, entries) <==> FirstOfKey(entries, |entries|, r)
  {
    PlanExact(rules, entries);
    DedupFirst(entries, |entries|, r);
    var rs, op := Dedup(entries, |entries|), OperationFor(rules, r).value;
    if From(rules, rs, op) {
      var i :| 0 <= i < |rs| && OperationFor(rules, rs[i]) == Some(op);
      assert rs[i] == r;
    }
    if r in rs {
      var i :| 0 <= i < |rs| && rs[i] == r;
      assert From(rules, rs, op);
    }
  }

  /** Every resource with a command has its own operation exactly when none of them comes after another
      resource with its key. */
  lemma OwnOperationsIff(rules: Rules, entries: seq<Resource>)
    requires HavePhases(rules, entries)
    ensures OwnOperations(rules, entries)
            <==> forall r :: r in entries && OperationFor(rules, r).Some? ==> FirstOfKey(entries, |entries|, r)
  {
    forall r | r in entries && OperationFor(rules, r).Some? { OwnOperationIff(rules, entries, r); }
  }

  /** When every resource has a command, that is when objects that share a key agree. */
  lemma OwnOperationsWithCommands(rules: Rules, entries: seq<Resource>)
    requires HavePhases(rules, entries) && forall r :: r in entries ==> OperationFor(rules, r).Some?
    ensures OwnOperations(rules, entries) <==> KeysAgree(entries)
  {
    OwnOperationsIff(rules, entries);
    if KeysAgree(entries) {
      forall r | r in entries ensures FirstOfKey(entries, |entries|, r) { AgreeingIsFirst(entries, r); }
    }
    if forall r :: r in entries ==> FirstOfKey(entries, |entries|, r) {
      forall x, y | x in entries && y in entries && KeyOf(x) == KeyOf(y) ensures x == y {
        var i :| 0 <= i < |entries| && entries[i] == x && forall j :: 0 <= j < i ==> KeyOf(entries[j]) != KeyOf(x);
        var j :| 0 <= j < |entries| && entries[j] == y && forall h :: 0 <= h < j ==> KeyOf(entries[h]) != KeyOf(y);
      }
    }
  }

  lemma AgreeingIsFirst(entries: seq<Resource>, r: Resource)
    requires KeysAgree(entries) && r in entries
    ensures FirstOfKey(entries, |entries|, r)
  {
    DedupExact(entries, |entries|);
    var d := Dedup(entries, |entries|);
    var e :| 0 <= e < |entries| && entries[e] == r;
    var i :| 0 <= i < |d| && KeyOf(d[i]) == KeyOf(r);
    assert d[i] in d && d[i] in entries;
    DedupFirst(entries, |entries|, r);
  }

  /** A report with one object name in two Swift containers. */
  function TwoContainers(service: string, kind: string, name: string, c1: string, c2: string): Report {
    [Service(service, [KindEntry(kind, Listed([Item(map["name" := name, "container" := c1]),
                                               Item(map["name" := name, "container" := c2])]))])]
  }

  /** The plan deletes the object of the first container and has neither an operation nor an issue for the
      other. */
  lemma SameNameInTwoContainers(rules: Rules, words: map<KindKey, seq<string>>, service: string, kind: string,
                                name: string, c1: string, c2: string)
    requires rules.canonicalService(service) == "object-store" && rules.canonicalResource(kind) == "object"
    requires ("object-store", "object") in rules.phases && ("object-store", "object") !in rules.coveredChildren
    requires forall r :: rules.command(r) == CommandFor(words, r)
    requires name != "" && c1 != "" && c2 != "" && c1 != c2
    ensures var plan := Plan(rules, TwoContainers(service, kind, name, c1, c2));
            && |plan| == 1 && plan[0].argv == ["object", "delete", c1, name]
            && PlanIssues(rules, TwoContainers(service, kind, name, c1, c2)) == []
            && !OwnOperations(rules, Entries(rules, TwoContainers(service, kind, name, c1, c2)))
  {
    var k := ("object-store", "object");
    var a, b := map["name" := name, "container" := c1], map["name" := name, "container" := c2];
    var x, y := Resource(k.0, k.1, name, a), Resource(k.0, k.1, name, b);
    TwoEntries(rules, service, kind, name, c1, c2);
    ObjectCommand(words, x, c1, name);
    ObjectCommand(words, y, c2, name);
    assert a["container"] != b["container"];
    TwoResources(rules, x, y);
  }

  lemma ObjectCommand(words: map<KindKey, seq<string>>, r: Resource, container: string, name: string)
    requires (r.service, r.kind) == ("object-store", "object") && name != "" && container != ""
    requires r.attrs == map["name" := name, "container" := container]
    ensures CommandFor(words, r) == Some(["object", "delete", container, name])
  {
  }

  lemma TwoEntries(rules: Rules, service: string, kind: string, name: string, c1: string, c2: string)
    requires rules.canonicalService(service) == "object-store" && rules.canonicalResource(kind) == "object"
    requires ("object-store", "object") in rules.phases && ("object-store", "object") !in rules.coveredChildren
    requires name != ""
    ensures Entries(rules, TwoContainers(service, kind, name, c1, c2))
            == [Resource("object-store", "object", name, map["name" := name, "container" := c1]),
                Resource("object-store", "object", name, map["name" := name, "container" := c2])]
    ensures ReadReport(rules, TwoContainers(service, kind, name, c1, c2), 1).issues == []
  {
    var report, k := TwoContainers(service, kind, name, c1, c2), ("object-store", "object");
    var items := report[0].kinds[0].objects.items;
    assert |"object-store"| != |"identity"| && |"object-store"| != |"workflow"| && |"object-store"| != |"alarm"|;
    assert k != ("identity", "project") && k != ("workflow", "cron_trigger") && k != ("alarm", "alarm");
    NamedByName(k, items[0].attrs, name);
    NamedByName(k, items[1].attrs, name);
    assert ReadItems(rules, k, items, 0) == Reading([], []);
    assert ReadItems(rules, k, items, 1) == Reading([Resource(k.0, k.1, name, items[0].attrs)], []);
    assert ReadItems(rules, k, items, 2).issues == [];
    assert ReadKinds(rules, k.0, report[0].kinds, 0) == Reading([], []);
    assert ReadKinds(rules, k.0, report[0].kinds, 1) == ReadItems(rules, k, items, 2);
    assert ReadReport(rules, report, 0) == Reading([], []);
  }

  lemma NamedByName(k: KindKey, attrs: map<string, string>, name: string)
    requires k == ("object-store", "object") && attrs.Keys == {"name", "container"} && attrs["name"] == name != ""
    ensures Identifier(attrs, k) == name
  {
    assert |"object-store"| != |"workflow"| && |"object-store"| != |"alarm"|;
    var keys := ["id", "uuid", "name", "display_name", "stack_name"];
    assert |"id"| == 2 && |"name"| == 4 && |"uuid"| == 4 && "uuid"[0] != "name"[0] && |"container"| == 9;
    assert FirstOf(attrs, keys) == FirstOf(attrs, keys[1..]);
    assert FirstOf(attrs, keys[1..]) == FirstOf(attrs, keys[1..][1..]);
    assert keys[1..][1..][0] == "name";
  }

  lemma TwoResources(rules: Rules, x: Resource, y: Resource)
    requires (x.service, x.kind) in rules.phases && KeyOf(x) == KeyOf(y) && x != y
    requires rules.command(x).Some? && rules.command(y).Some?
    ensures PlanFrom(rules, [x, y]) == [OperationFor(rules, x).value] && !OwnOperations(rules, [x, y])
    ensures IssuesFrom(rules, [x, y]) == []
  {
    assert Dedup([x, y], 0) == [];
    assert Dedup([x, y], 1) == [x] && KeyOf([x][0]) == KeyOf(y);
    assert Dedup([x, y], 2) == [x];
    assert Ops(rules, [x], 0) == [];
    var op := OperationFor(rules, x).value;
    assert Ops(rules, [x], 1) == [op];
    assert CommandIssues(rules, [x], 0) == [] && CommandIssues(rules, [x], 1) == [];
    assert Sort([op][1..]) == [] && Sort([op]) == [op];
    assert OperationFor(rules, y).value.resource == y && y in [x, y];
  }
}
