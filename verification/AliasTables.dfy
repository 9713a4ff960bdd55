// The tool's own alias tables, and what they do to canonical names
// (delete-project-resources.py, SERVICE_ALIASES and RESOURCE_ALIASES).

module AliasTables {
  import opened CanonicalNames

  // ---------- Resources ----------

  /** Resource names whose alias is the name with an s. */
  function Regular(): set<string> { (Regular0() + Regular1()) + Regular2() }

  function Regular0(): set<string> {
    {
      "action_execution", "action", "alarm", "backup", "capsule",
      "cluster_template", "code_source", "container", "cron_trigger", "event_trigger",
      "event", "floating_ip", "group_snapshot", "keypair"
    }
  }

  function Regular1(): set<string> {
    {
      "load_balancer", "network", "object", "port", "recordset",
      "receiver", "security_group_rule", "security_group", "server_group", "server",
      "share_group", "share_snapshot", "share_network", "share"
    }
  }

  function Regular2(): set<string> {
    {
      "snapshot", "software_config", "software_deployment", "stack", "subnet",
      "trust", "user_message", "volume_transfer", "volume", "workbook",
      "workflow", "zone_share", "zone"
    }
  }

  /** The other aliases. */
  function Irregular(): Aliases {
    map[
      "application_containers" := "container", "database_instances" := "instance",
      "loadbalancers" := "load_balancer", "network_ip_availabilities" := "network_ip_availability",
      "rbac_policies" := "rbac_policy", "record_sets" := "recordset",
      "workflow_executions" := "execution"
    ]
  }

  function ResourceAliases(): Aliases { PluralsOf(Regular()) + Irregular() }

  /** Every name under itself with an s. */
  function PluralsOf(names: set<string>): (t: Aliases)
    ensures forall n :: n in t <==> EndsInS(n) && n[..|n|-1] in names
    ensures forall n :: n in t && n != "" ==> t[n] == n[..|n|-1]
  {
    var plurals := set r | r in names :: r + "s";
    assert forall n :: n in plurals <==> EndsInS(n) && n[..|n|-1] in names by {
      forall n | EndsInS(n) && n[..|n|-1] in names ensures n in plurals { assert n == n[..|n|-1] + "s"; }
      forall r | r in names ensures (r + "s")[..|r|] == r { }
    }
    map n | n in plurals :: n[..|n|-1]
  }

  predicate EndsInS(s: string) { s != "" && s[|s|-1] == 's' }

  lemma Singular0(n: string)
    requires n in Regular0()
    ensures n != "" && !EndsInS(n) && n[|n|-1] != '_'
  {
  }

  lemma Singular1(n: string)
    requires n in Regular1()
    ensures n != "" && !EndsInS(n) && n[|n|-1] != '_'
  {
  }

  lemma Singular2(n: string)
    requires n in Regular2()
    ensures n != "" && !EndsInS(n) && n[|n|-1] != '_'
  {
  }

  lemma SingularNames(n: string)
    requires n in Regular()
    ensures n != "" && !EndsInS(n) && n[|n|-1] != '_'
  {
    if n in Regular0() { Singular0(n); }
    if n in Regular1() { Singular1(n); }
    if n in Regular2() { Singular2(n); }
  }

  lemma IrregularAlias(n: string)
    requires n in Irregular()
    ensures EndsInS(n) && !EndsInS(Irregular()[n])
  {
  }

  lemma NamesNormal0(t: string)
    requires t in {"container", "instance", "load_balancer"}
    ensures Normal(t)
  {
    if t == "container" { } else if t == "instance" { }
  }

  lemma NamesNormal1(t: string)
    requires t in {"rbac_policy", "recordset", "execution"}
    ensures Normal(t)
  {
    if t == "rbac_policy" { } else if t == "recordset" { }
  }

  lemma NamesNormal2()
    ensures Normal("network_ip_availability")
  {
  }

  lemma IrregularName(n: string)
    requires n in Irregular()
    ensures Normal(Irregular()[n])
  {
    var t := Irregular()[n];
    NamesNormal2();
    if t in {"rbac_policy", "recordset", "execution"} {
      NamesNormal1(t);
    } else if t != "network_ip_availability" {
      NamesNormal0(t);
    }
  }

  /** Aliases are plurals: every alias ends in s, and no name it stands for does. */
  lemma Plurals(n: string)
    requires n in ResourceAliases()
    ensures EndsInS(n) && !EndsInS(ResourceAliases()[n])
    ensures Normal(n) ==> Normal(ResourceAliases()[n])
  {
    if n in Irregular() {
      IrregularAlias(n);
      IrregularName(n);
    } else {
      var r := n[..|n|-1];
      SingularNames(r);
      if Normal(n) { NormalWithoutS(r, n); }
    }
  }

  lemma NormalWithoutS(r: string, n: string)
    requires r != "" && r[|r|-1] != '_' && Normal(n) && n != "" && r == n[..|n|-1]
    ensures Normal(r)
  {
    assert forall i :: 0 <= i < |r| ==> r[i] == n[i];
    forall i | 0 < i < |r| ensures !(r[i-1] == '_' && r[i] == '_') { assert !(n[i-1] == '_' && n[i] == '_'); }
  }

  /** The tool's canonical resource names are stable, for every string: no name an alias stands for is an alias. */
  lemma ResourceNamesStable(lower: Lowering)
    requires LowersAscii(lower)
    ensures forall s ::
              var once := CanonicalResource(lower, ResourceAliases(), s);
              CanonicalResource(lower, ResourceAliases(), once) == once
  {
    forall n | n in ResourceAliases() && Normal(n)
      ensures CanonicalResource(lower, ResourceAliases(), ResourceAliases()[n]) == ResourceAliases()[n]
    {
      Plurals(n);
      SingularIsCanonical(lower, ResourceAliases()[n]);
    }
    ResourceIdempotentIff(lower, ResourceAliases());
  }

  /** A normal name that does not end in s is its own canonical name. */
  lemma SingularIsCanonical(lower: Lowering, n: string)
    requires LowersAscii(lower) && Normal(n) && !EndsInS(n)
    ensures CanonicalResource(lower, ResourceAliases(), n) == n
  {
    NormalFixed(lower, n, n);
    if n in ResourceAliases() { Plurals(n); }
  }

  lemma RegularAlias(lower: Lowering, n: string)
    requires LowersAscii(lower) && Normal(n) && EndsInS(n) && n[..|n|-1] in Regular() && n !in Irregular()
    ensures CanonicalResource(lower, ResourceAliases(), n) == n[..|n|-1]
  {
    NormalFixed(lower, n, n);
  }

  // ---------- Services ----------

  /** Services whose alias is the name with underscores. */
  function Spelled(): set<string> {
    {
      "application_container", "backup", "block_storage", "clustering", "compute",
      "database", "dns", "image", "key_manager", "load_balancer",
      "network", "object_store", "orchestration", "shared_file_system"
    }
  }

  /** Aliases that name another service, given with underscores. */
  function Renamed(): Aliases { Renamed0() + Renamed1() }

  function Renamed0(): Aliases {
    map[
      "alarming" := "alarm", "container" := "application_container",
      "zun" := "application_container", "cinder" := "block_storage",
      "designate" := "dns", "heat" := "orchestration",
      "loadbalancer" := "load_balancer", "magnum" := "container_infrastructure_management"
    ]
  }

  function Renamed1(): Aliases {
    map[
      "manila" := "shared_file_system", "mistral" := "workflow",
      "neutron" := "network", "nova" := "compute",
      "octavia" := "load_balancer", "swift" := "object_store",
      "workflow_engine" := "workflow"
    ]
  }

  function ServiceAliases(): Aliases {
    (map n | n in Spelled() :: n := Dashed(n)) + (map n | n in Renamed() :: n := Dashed(Renamed()[n]))
  }

  /** Length and first letters tell the names of services from the aliases that rename one. */
  predicate ServiceMark(s: string) {
    || (|s| == 3 && s[0] == 'd')
    || (|s| == 5 && s[0] == 'a')
    || (|s| == 7 && (s[0] == 'c' || (s[0] == 'n' && s[2] == 't')))
    || (|s| == 8 && s[0] == 'w')
    || (|s| == 12 && s[0] == 'o')
    || |s| in [13, 18, 21, 35]
  }

  lemma RenamedMarks(n: string)
    requires n in Renamed()
    ensures !ServiceMark(n) && ServiceMark(Renamed()[n])
  {
    if n in Renamed1() { RenamedMarks1(n); } else { RenamedMarks0(n); }
  }

  lemma RenamedMarks0(n: string)
    requires n in Renamed0()
    ensures !ServiceMark(n) && ServiceMark(Renamed0()[n])
  {
  }

  lemma RenamedMarks1(n: string)
    requires n in Renamed1()
    ensures !ServiceMark(n) && ServiceMark(Renamed1()[n])
  {
  }

  lemma RenamedName(n: string)
    requires n in Renamed()
    ensures Normal(Renamed()[n])
  {
    if n in Renamed1() { RenamedName1(n); } else { RenamedName0(n); }
  }

  lemma ServicesNormal0(t: string)
    requires t in {"alarm", "application_container", "block_storage", "dns"}
    ensures Normal(t)
  {
    if t == "alarm" { } else if t == "application_container" { } else if t == "block_storage" { }
  }

  lemma ServicesNormal1(t: string)
    requires t in {"orchestration", "load_balancer", "workflow"}
    ensures Normal(t)
  {
    if t == "orchestration" { } else if t == "load_balancer" { }
  }

  lemma ServicesNormal2(t: string)
    requires t in {"shared_file_system", "network", "compute", "object_store"}
    ensures Normal(t)
  {
    if t == "shared_file_system" { } else if t == "network" { } else if t == "compute" { }
  }

  lemma LongestName()
    ensures Normal("container_infrastructure_management")
  {
  }

  lemma RenamedName0(n: string)
    requires n in Renamed0()
    ensures Normal(Renamed0()[n])
  {
    var t := Renamed0()[n];
    LongestName();
    if t in {"alarm", "application_container", "block_storage", "dns"} { ServicesNormal0(t); }
    else if t in {"orchestration", "load_balancer"} { ServicesNormal1(t); }
  }

  lemma RenamedName1(n: string)
    requires n in Renamed1()
    ensures Normal(Renamed1()[n])
  {
    var t := Renamed1()[n];
    if t in {"load_balancer", "workflow"} { ServicesNormal1(t); } else { ServicesNormal2(t); }
  }

  /** The tool's canonical service names are stable, for every string. */
  lemma ServiceNamesStable(lower: Lowering)
    requires LowersAscii(lower)
    ensures forall s ::
              var once := CanonicalService(lower, ServiceAliases(), s);
              CanonicalService(lower, ServiceAliases(), once) == once
  {
    forall n | n in ServiceAliases() && Normal(n)
      ensures CanonicalService(lower, ServiceAliases(), ServiceAliases()[n]) == ServiceAliases()[n]
    {
      if n in Renamed() {
        RenamedMarks(n);
        RenamedName(n);
        DashedIsCanonical(lower, Renamed()[n]);
      } else {
        DashedIsCanonical(lower, n);
      }
    }
    ServiceIdempotentIff(lower, ServiceAliases());
  }

  /** A normal name that renames no service has its dashed form as its canonical name. */
  lemma DashedIsCanonical(lower: Lowering, u: string)
    requires LowersAscii(lower) && Normal(u) && (u in Renamed() ==> ServiceMark(u))
    ensures CanonicalService(lower, ServiceAliases(), Dashed(u)) == Dashed(u)
  {
    NormalFixed(lower, u, Dashed(u));
    if u in Renamed() { RenamedMarks(u); }
  }
}
