/**
 Expanding scrape jobs into per-unit jobs (`PrometheusConfig`): wildcard targets once
 per host, other targets under the unit that owns the address, the rest left together.
 */
module ScrapeTargets {
  import opened Text
  import opened Collections

  type Labels = map<string, string>

  datatype StaticConfig = StaticConfig(targets: Option<seq<string>>, labels: Option<Labels>, other: string)

  datatype Relabel = Given(text: string) | ByApplication | ByUnit

  datatype Job = Job(
    name: Option<string>, path: Option<string>, configs: Option<seq<StaticConfig>>,
    relabel: Option<seq<Relabel>>, other: string)

  /** A unit of the relation: its name, address, path prefix and FQDN (empty when absent). */
  datatype Host = Host(unit: string, addr: string, path: string, fqdn: string)

  type Topology = Option<Labels>

  function GetOr<T>(o: Option<T>, default: T): T { if o.Some? then o.value else default }

  predicate IsWildcard(t: string) { t != [] && t[0] == '*' }

  /** `target.replace("*", host)`. */
  function ReplaceStar(t: string, host: string): string {
    if t == [] then [] else (if t[0] == '*' then host else [t[0]]) + ReplaceStar(t[1..], host)
  }

  /** A text without stars stays as it is. */
  lemma {:induction false} ReplaceNothing(t: string, host: string)
    requires Free(t, '*')
    ensures ReplaceStar(t, host) == t
  {
    if t != [] { ReplaceNothing(t[1..], host); }
  }

  /** Each star gives way to the host, and what stands around it stays. */
  lemma {:induction false} ReplaceAround(a: string, b: string, host: string)
    ensures ReplaceStar(a + "*" + b, host) == ReplaceStar(a, host) + host + ReplaceStar(b, host)
  {
    var t := a + "*" + b;
    if a == [] {
      assert t[1..] == b;
    } else {
      assert t[1..] == a[1..] + "*" + b;
      ReplaceAround(a[1..], b, host);
      assert ReplaceStar(t, host) == (if t[0] == '*' then host else [t[0]]) + ReplaceStar(t[1..], host);
    }
  }

  /** A wildcard target such as `*:9104` becomes the host followed by the rest. */
  lemma ReplaceFirst(rest: string, host: string)
    requires Free(rest, '*')
    ensures ReplaceStar("*" + rest, host) == host + rest
  {
    ReplaceAround([], rest, host);
    ReplaceNothing(rest, host);
    assert [] + "*" + rest == "*" + rest;
  }

  function Resolve(ts: seq<string>, host: string): seq<string> {
    if ts == [] then [] else Resolve(ts[..|ts| - 1], host) + [ReplaceStar(ts[|ts| - 1], host)]
  }

  function Select(ts: seq<string>, wild: bool): seq<string> {
    if ts == [] then []
    else Select(ts[..|ts| - 1], wild) + (if IsWildcard(ts[|ts| - 1]) == wild then [ts[|ts| - 1]] else [])
  }

  /** The last part of a unit name, `unit_name.split("/")[-1]`. */
  function UnitNumber(unit: string): string {
    if unit == [] || unit[|unit| - 1] == '/' then [] else UnitNumber(unit[..|unit| - 1]) + [unit[|unit| - 1]]
  }

  lemma {:induction false} NumberAlone(unit: string)
    requires Free(unit, '/')
    ensures UnitNumber(unit) == unit
  {
    if unit != [] {
      NumberAlone(unit[..|unit| - 1]);
      assert unit == unit[..|unit| - 1] + [unit[|unit| - 1]];
    }
  }

  /** The number is what follows the last slash. */
  lemma {:induction false} NumberAfterSlash(app: string, number: string)
    requires Free(number, '/')
    ensures UnitNumber(app + "/" + number) == number
  {
    var unit := app + "/" + number;
    if number != [] {
      var n := |number| - 1;
      assert unit[..|unit| - 1] == app + "/" + number[..n];
      NumberAfterSlash(app, number[..n]);
      assert number == number[..n] + [number[n]];
    }
  }

  function PerUnitLabels(cfg: StaticConfig, unit: string, topology: Topology): Option<Labels> {
    if topology.Some? then Some(topology.value["juju_unit" := unit] + GetOr(cfg.labels, map[])) else cfg.labels
  }

  /** `_build_per_unit_job`. */
  function PerUnitJob(job: Job, cfg: StaticConfig, ts: seq<string>, unit: string, path: string,
                      topology: Topology): Job {
    job.(name := Some(GetOr(job.name, "unnamed-job") + "-" + UnitNumber(unit)),
         path := Some(path + MetricsPath(job)),
         configs := Some([cfg.(targets := Some(ts), labels := PerUnitLabels(cfg, unit, topology))]),
         relabel := if topology.Some? then Some(GetOr(job.relabel, []) + [ByUnit]) else job.relabel)
  }

  function MetricsPath(job: Job): string {
    if job.path.Some? && job.path.value != "" then job.path.value else "/metrics"
  }

  function LeftOverConfig(cfg: StaticConfig, ts: seq<string>, topology: Topology): StaticConfig {
    cfg.(targets := Some(ts),
         labels := if topology.Some? then Some(topology.value + GetOr(cfg.labels, map[])) else cfg.labels)
  }

  function LeftOverJob(job: Job, cfgs: seq<StaticConfig>, topology: Topology): Job {
    job.(configs := Some(cfgs), path := Some(MetricsPath(job)),
         relabel := if topology.Some? then Some(GetOr(job.relabel, []) + [ByApplication]) else job.relabel)
  }

  /** Labels the charm author set are never lost or overridden. */
  lemma UserLabelsSurvive(cfg: StaticConfig, ts: seq<string>, unit: string, topology: Topology)
    ensures var labels := GetOr(cfg.labels, map[]);
            && labels.Items <= GetOr(PerUnitLabels(cfg, unit, topology), map[]).Items
            && labels.Items <= GetOr(LeftOverConfig(cfg, ts, topology).labels, map[]).Items
    ensures topology.Some? && "juju_unit" !in GetOr(cfg.labels, map[]) ==>
              GetOr(PerUnitLabels(cfg, unit, topology), map[])["juju_unit"] == unit
  {
  }

  /** Classification keeps every target. */
  lemma {:induction false} SelectSplits(ts: seq<string>)
    ensures multiset(Select(ts, true)) + multiset(Select(ts, false)) == multiset(ts)
  {
    if ts != [] {
      SelectSplits(ts[..|ts| - 1]);
      Snoc(ts);
    }
  }

  lemma {:induction false} SelectMeans(ts: seq<string>)
    ensures forall t :: t in Select(ts, true) <==> t in ts && t != [] && t[0] == '*'
    ensures forall t :: t in Select(ts, false) <==> t in ts && (t == [] || t[0] != '*')
  {
    if ts != [] {
      var n := |ts| - 1;
      SelectMeans(ts[..n]);
      assert ts == ts[..n] + [ts[n]];
    }
  }

  // The targets of configs and jobs, with multiplicity.

  function ConfigTargets(cfgs: seq<StaticConfig>): multiset<string> {
    if cfgs == [] then multiset{}
    else ConfigTargets(cfgs[..|cfgs| - 1]) + multiset(GetOr(cfgs[|cfgs| - 1].targets, []))
  }

  function JobTargets(jobs: seq<Job>): multiset<string> {
    if jobs == [] then multiset{}
    else JobTargets(jobs[..|jobs| - 1]) + ConfigTargets(GetOr(jobs[|jobs| - 1].configs, []))
  }

  /** What wildcard targets become: each of them once per host. */
  function PerHost(ts: seq<string>, hosts: seq<Host>): multiset<string> {
    if hosts == [] then multiset{}
    else PerHost(ts, hosts[..|hosts| - 1]) + multiset(Resolve(ts, hosts[|hosts| - 1].addr))
  }

  function ExpectedOfConfig(cfg: StaticConfig, hosts: seq<Host>): multiset<string> {
    var ts := GetOr(cfg.targets, []);
    multiset(Select(ts, false)) + PerHost(Select(ts, true), hosts)
  }

  function ExpectedOfConfigs(cfgs: seq<StaticConfig>, hosts: seq<Host>): multiset<string> {
    if cfgs == [] then multiset{}
    else ExpectedOfConfigs(cfgs[..|cfgs| - 1], hosts) + ExpectedOfConfig(cfgs[|cfgs| - 1], hosts)
  }

  /** Each plain target once, each wildcard target once per host with the star replaced. */
  function Expected(jobs: seq<Job>, hosts: seq<Host>): multiset<string> {
    if jobs == [] then multiset{}
    else Expected(jobs[..|jobs| - 1], hosts) + ExpectedOfConfigs(GetOr(jobs[|jobs| - 1].configs, []), hosts)
  }

  lemma SumAssociates(a: multiset<string>, b: multiset<string>, c: multiset<string>)
    ensures a + b + c == a + (b + c)
  {
  }

  lemma {:induction false} JobTargetsConcat(a: seq<Job>, b: seq<Job>)
    ensures JobTargets(a + b) == JobTargets(a) + JobTargets(b)
  {
    if b == [] {
      assert a + b == a;
    } else {
      var n := |b| - 1;
      JobTargetsConcat(a, b[..n]);
      assert (a + b)[..|a + b| - 1] == a + b[..n] && (a + b)[|a + b| - 1] == b[n];
      SumAssociates(JobTargets(a), JobTargets(b[..n]), ConfigTargets(GetOr(b[n].configs, [])));
    }
  }

  lemma OneJobTargets(job: Job, cfgs: seq<StaticConfig>)
    requires job.configs == Some(cfgs)
    ensures JobTargets([job]) == ConfigTargets(cfgs)
  {
    assert [job][..0] == [];
    assert JobTargets([]) == multiset{};
  }

  lemma PerUnitTargets(job: Job, cfg: StaticConfig, ts: seq<string>, unit: string, path: string, topology: Topology)
    ensures JobTargets([PerUnitJob(job, cfg, ts, unit, path, topology)]) == multiset(ts)
  {
    var made := PerUnitJob(job, cfg, ts, unit, path, topology);
    OneJobTargets(made, made.configs.value);
    assert made.configs.value[..0] == [];
    assert ConfigTargets(made.configs.value) == multiset{} + multiset(ts);
  }

  /** `_classify_targets`. */
  method ClassifyTargets(ts: seq<string>) returns (wild: seq<string>, plain: seq<string>)
    ensures wild == Select(ts, true) && plain == Select(ts, false)
    ensures multiset(wild) + multiset(plain) == multiset(ts)
    ensures forall t :: t in wild ==> t != [] && t[0] == '*'
    ensures forall t :: t in plain ==> t == [] || t[0] != '*'
  {
    wild, plain := [], [];
    for i := 0 to |ts|
      invariant wild == Select(ts[..i], true) && plain == Select(ts[..i], false)
    {
      assert ts[..i + 1][..i] == ts[..i];
      if IsWildcard(ts[i]) {
        wild := wild + [ts[i]];
      } else {
        plain := plain + [ts[i]];
      }
    }
    assert ts[..|ts|] == ts;
    SelectSplits(ts);
    SelectMeans(ts);
  }

  /** The unit at each known address and FQDN; a later unit replaces an earlier one. */
  function HostToUnit(hosts: seq<Host>, topology: Topology): map<string, string> {
    if topology.None? || hosts == [] then map[]
    else
      var earlier, h := HostToUnit(hosts[..|hosts| - 1], topology), hosts[|hosts| - 1];
      earlier + (map k | k in {h.addr, h.fqdn} - {""} :: h.unit)
  }

  ghost predicate Owns(h: Host, k: string) { k != "" && (k == h.addr || k == h.fqdn) }

  /** The table names only units that own the address or FQDN they are listed under. */
  lemma {:induction false} TableIsRight(hosts: seq<Host>, topology: Topology, k: string)
    requires k in HostToUnit(hosts, topology)
    ensures exists i :: 0 <= i < |hosts| && hosts[i].unit == HostToUnit(hosts, topology)[k] && Owns(hosts[i], k)
  {
    var n := |hosts| - 1;
    if Owns(hosts[n], k) {
      assert hosts[n].unit == HostToUnit(hosts, topology)[k];
    } else {
      TableIsRight(hosts[..n], topology, k);
      var i :| 0 <= i < n && hosts[..n][i].unit == HostToUnit(hosts, topology)[k] && Owns(hosts[..n][i], k);
      assert hosts[i] == hosts[..n][i];
    }
  }

  /**
   With a topology, every address and FQDN is in the table, under the last unit that has it; without one the
   table is empty.
   */
  lemma {:induction false} TableIsComplete(hosts: seq<Host>, topology: Topology, i: nat, k: string)
    requires i < |hosts| && k != "" && (k == hosts[i].addr || k == hosts[i].fqdn)
    ensures topology.None? ==> HostToUnit(hosts, topology) == map[]
    ensures topology.Some? ==> k in HostToUnit(hosts, topology)
    ensures topology.Some? && (forall j :: i < j < |hosts| ==> k != hosts[j].addr && k != hosts[j].fqdn) ==>
              k in HostToUnit(hosts, topology) && HostToUnit(hosts, topology)[k] == hosts[i].unit
  {
    var n := |hosts| - 1;
    if i < n { TableIsComplete(hosts[..n], topology, i, k); }
  }

  /** The targets collected per unit, in order of first match. */
  datatype Matched = Matched(order: seq<string>, lists: map<string, seq<string>>)

  ghost predicate Well(m: Matched) {
    && (forall u :: u in m.order <==> u in m.lists)
    && (forall i, j :: 0 <= i < j < |m.order| ==> m.order[i] != m.order[j])
  }

  function MatchedTargets(order: seq<string>, lists: map<string, seq<string>>): multiset<string> {
    if order == [] then multiset{}
    else
      var u := order[|order| - 1];
      MatchedTargets(order[..|order| - 1], lists) + (if u in lists then multiset(lists[u]) else multiset{})
  }

  function Append(m: Matched, u: string, t: string): Matched {
    if u in m.lists then m.(lists := m.lists[u := m.lists[u] + [t]])
    else Matched(m.order + [u], m.lists[u := [t]])
  }

  lemma {:induction false} ListsElsewhere(order: seq<string>, lists: map<string, seq<string>>, u: string,
                                          ts: seq<string>)
    requires u !in order
    ensures MatchedTargets(order, lists[u := ts]) == MatchedTargets(order, lists)
  {
    if order != [] {
      ListsElsewhere(order[..|order| - 1], lists, u, ts);
    }
  }

  lemma {:induction false} ListGrows(order: seq<string>, lists: map<string, seq<string>>, u: string, t: string)
    requires u in order && u in lists && forall i, j :: 0 <= i < j < |order| ==> order[i] != order[j]
    ensures MatchedTargets(order, lists[u := lists[u] + [t]]) == MatchedTargets(order, lists) + multiset{t}
  {
    var n := |order| - 1;
    if order[n] == u {
      ListsElsewhere(order[..n], lists, u, lists[u] + [t]);
    } else {
      ListGrows(order[..n], lists, u, t);
    }
  }

  lemma AppendTargets(m: Matched, u: string, t: string)
    requires Well(m)
    ensures Well(Append(m, u, t))
    ensures MatchedTargets(Append(m, u, t).order, Append(m, u, t).lists) ==
            MatchedTargets(m.order, m.lists) + multiset{t}
  {
    if u in m.lists {
      ListGrows(m.order, m.lists, u, t);
    } else {
      ListsElsewhere(m.order, m.lists, u, [t]);
      assert (m.order + [u])[..|m.order|] == m.order;
    }
  }

  /** Every collected target belongs to the unit it is listed under. */
  ghost predicate RightlyMatched(m: Matched, table: map<string, string>, hostOf: string -> string) {
    forall u, t :: u in m.lists && t in m.lists[u] ==> hostOf(t) in table && table[hostOf(t)] == u && u != ""
  }

  lemma AppendRight(m: Matched, table: map<string, string>, hostOf: string -> string, t: string)
    requires RightlyMatched(m, table, hostOf) && hostOf(t) in table && table[hostOf(t)] != ""
    ensures RightlyMatched(Append(m, table[hostOf(t)], t), table, hostOf)
  {
    var u := table[hostOf(t)];
    forall v, x | v in Append(m, u, t).lists && x in Append(m, u, t).lists[v]
      ensures hostOf(x) in table && table[hostOf(x)] == v && v != ""
    {
      assert v != u ==> v in m.lists && x in m.lists[v];
      assert v == u && x != t ==> v in m.lists && x in m.lists[v];
    }
  }

  predicate Known(table: map<string, string>, host: string) { host in table && table[host] != "" }

  /** The targets matched and left over after looking at each target in turn. */
  datatype Split = Split(matched: Matched, unmatched: seq<string>)

  function MatchAll(ts: seq<string>, table: map<string, string>, hostOf: string -> string): Split {
    if ts == [] then Split(Matched([], map[]), [])
    else
      var s, t := MatchAll(ts[..|ts| - 1], table, hostOf), ts[|ts| - 1];
      if Known(table, hostOf(t)) then s.(matched := Append(s.matched, table[hostOf(t)], t))
      else s.(unmatched := s.unmatched + [t])
  }

  ghost predicate Conserved(s: Split, ts: seq<string>, table: map<string, string>, hostOf: string -> string) {
    && Well(s.matched) && RightlyMatched(s.matched, table, hostOf)
    && MatchedTargets(s.matched.order, s.matched.lists) + multiset(s.unmatched) == multiset(ts)
    && (forall t :: t in s.unmatched ==> !Known(table, hostOf(t)))
  }

  lemma MatchedOneMore(s: Split, ts: seq<string>, table: map<string, string>, hostOf: string -> string, t: string)
    requires Conserved(s, ts, table, hostOf) && Known(table, hostOf(t))
    ensures Conserved(s.(matched := Append(s.matched, table[hostOf(t)], t)), ts + [t], table, hostOf)
  {
    AppendTargets(s.matched, table[hostOf(t)], t);
    AppendRight(s.matched, table, hostOf, t);
  }

  lemma LeftOneMore(s: Split, ts: seq<string>, table: map<string, string>, hostOf: string -> string, t: string)
    requires Conserved(s, ts, table, hostOf) && !Known(table, hostOf(t))
    ensures Conserved(s.(unmatched := s.unmatched + [t]), ts + [t], table, hostOf)
  {
  }

  /** Matching loses no target and puts each one under a unit that owns its host. */
  lemma {:induction false} MatchConserves(ts: seq<string>, table: map<string, string>, hostOf: string -> string)
    ensures Conserved(MatchAll(ts, table, hostOf), ts, table, hostOf)
  {
    if ts != [] {
      var n := |ts| - 1;
      var s := MatchAll(ts[..n], table, hostOf);
      MatchConserves(ts[..n], table, hostOf);
      assert ts[..n] + [ts[n]] == ts;
      if Known(table, hostOf(ts[n])) {
        MatchedOneMore(s, ts[..n], table, hostOf, ts[n]);
      } else {
        LeftOneMore(s, ts[..n], table, hostOf, ts[n]);
      }
    }
  }

  /** The targets whose host is known to be the unit's, in their order; without a unit, those of unknown hosts. */
  function Belonging(ts: seq<string>, table: map<string, string>, hostOf: string -> string,
                     u: Option<string>): seq<string> {
    if ts == [] then []
    else
      var t, front := ts[|ts| - 1], Belonging(ts[..|ts| - 1], table, hostOf, u);
      var host := hostOf(t);
      var owner := if host in table && table[host] != "" then Some(table[host]) else None;
      if owner == u then front + [t] else front
  }

  /** Each unit's list, and the rest, hold exactly their targets in the order given. */
  lemma {:induction false} ListsInOrder(ts: seq<string>, table: map<string, string>, hostOf: string -> string,
                                        u: string)
    ensures var s := MatchAll(ts, table, hostOf);
            && s.unmatched == Belonging(ts, table, hostOf, None)
            && (u in s.matched.lists ==> s.matched.lists[u] == Belonging(ts, table, hostOf, Some(u)))
            && (u !in s.matched.lists ==> Belonging(ts, table, hostOf, Some(u)) == [])
  {
    if ts != [] { ListsInOrder(ts[..|ts| - 1], table, hostOf, u); }
  }

  /** `_match_non_wildcard_targets`; `hostOf` is the host part as URL parsing finds it. */
  method MatchTargets(ts: seq<string>, table: map<string, string>, hostOf: string -> string)
      returns (m: Matched, unmatched: seq<string>)
    ensures Split(m, unmatched) == MatchAll(ts, table, hostOf)
  {
    m, unmatched := Matched([], map[]), [];
    for i := 0 to |ts|
      invariant Split(m, unmatched) == MatchAll(ts[..i], table, hostOf)
    {
      assert ts[..i + 1][..i] == ts[..i];
      if Known(table, hostOf(ts[i])) {
        m := Append(m, table[hostOf(ts[i])], ts[i]);
      } else {
        unmatched := unmatched + [ts[i]];
      }
    }
    assert ts[..|ts|] == ts;
  }

  /** The path prefix of a unit, `hosts.get(unit_name, ("", "", ""))[1]`. */
  function PathOf(hosts: seq<Host>, unit: string): string {
    if hosts == [] then ""
    else if hosts[|hosts| - 1].unit == unit then hosts[|hosts| - 1].path
    else PathOf(hosts[..|hosts| - 1], unit)
  }

  function MatchedJobsOf(job: Job, cfg: StaticConfig, order: seq<string>, lists: map<string, seq<string>>,
                         hosts: seq<Host>, topology: Topology): seq<Job> {
    if order == [] then []
    else
      var u := order[|order| - 1];
      MatchedJobsOf(job, cfg, order[..|order| - 1], lists, hosts, topology)
      + [PerUnitJob(job, cfg, if u in lists then lists[u] else [], u, PathOf(hosts, u), topology)]
  }

  lemma {:induction false} MatchedJobsTargets(job: Job, cfg: StaticConfig, order: seq<string>,
                                              lists: map<string, seq<string>>, hosts: seq<Host>, topology: Topology)
    ensures JobTargets(MatchedJobsOf(job, cfg, order, lists, hosts, topology)) == MatchedTargets(order, lists)
  {
    if order != [] {
      var n, u := |order| - 1, order[|order| - 1];
      var ts := if u in lists then lists[u] else [];
      MatchedJobsTargets(job, cfg, order[..n], lists, hosts, topology);
      PerUnitTargets(job, cfg, ts, u, PathOf(hosts, u), topology);
      JobTargetsConcat(MatchedJobsOf(job, cfg, order[..n], lists, hosts, topology),
        [PerUnitJob(job, cfg, ts, u, PathOf(hosts, u), topology)]);
    }
  }

  lemma MatchedJobsSnoc(job: Job, cfg: StaticConfig, order: seq<string>, i: nat, lists: map<string, seq<string>>,
                        hosts: seq<Host>, topology: Topology)
    requires i < |order| && order[i] in lists
    ensures MatchedJobsOf(job, cfg, order[..i + 1], lists, hosts, topology) ==
            MatchedJobsOf(job, cfg, order[..i], lists, hosts, topology)
            + [PerUnitJob(job, cfg, lists[order[i]], order[i], PathOf(hosts, order[i]), topology)]
  {
    assert order[..i + 1][..i] == order[..i];
  }

  /** One job per matched unit. */
  method MatchedJobs(job: Job, cfg: StaticConfig, m: Matched, hosts: seq<Host>, topology: Topology)
      returns (out: seq<Job>)
    requires Well(m)
    ensures out == MatchedJobsOf(job, cfg, m.order, m.lists, hosts, topology)
  {
    out := [];
    for i := 0 to |m.order|
      invariant out == MatchedJobsOf(job, cfg, m.order[..i], m.lists, hosts, topology)
    {
      var u := m.order[i];
      MatchedJobsSnoc(job, cfg, m.order, i, m.lists, hosts, topology);
      out := out + [PerUnitJob(job, cfg, m.lists[u], u, PathOf(hosts, u), topology)];
    }
    assert m.order[..|m.order|] == m.order;
  }

  function WildcardJobsOf(job: Job, cfg: StaticConfig, wild: seq<string>, hosts: seq<Host>,
                          topology: Topology): seq<Job> {
    if hosts == [] then []
    else
      var h := hosts[|hosts| - 1];
      WildcardJobsOf(job, cfg, wild, hosts[..|hosts| - 1], topology)
      + [PerUnitJob(job, cfg, Resolve(wild, h.addr), h.unit, h.path, topology)]
  }

  lemma {:induction false} WildcardJobsTargets(job: Job, cfg: StaticConfig, wild: seq<string>, hosts: seq<Host>,
                                               topology: Topology)
    ensures JobTargets(WildcardJobsOf(job, cfg, wild, hosts, topology)) == PerHost(wild, hosts)
  {
    if hosts != [] {
      var n, h := |hosts| - 1, hosts[|hosts| - 1];
      WildcardJobsTargets(job, cfg, wild, hosts[..n], topology);
      PerUnitTargets(job, cfg, Resolve(wild, h.addr), h.unit, h.path, topology);
      JobTargetsConcat(WildcardJobsOf(job, cfg, wild, hosts[..n], topology),
                       [PerUnitJob(job, cfg, Resolve(wild, h.addr), h.unit, h.path, topology)]);
    }
  }

  /** One job per host for the wildcard targets of a config. */
  method WildcardJobs(job: Job, cfg: StaticConfig, wild: seq<string>, hosts: seq<Host>, topology: Topology)
      returns (out: seq<Job>)
    ensures out == WildcardJobsOf(job, cfg, wild, hosts, topology)
  {
    out := [];
    for i := 0 to |hosts|
      invariant out == WildcardJobsOf(job, cfg, wild, hosts[..i], topology)
    {
      assert hosts[..i + 1][..i] == hosts[..i];
      out := out + [PerUnitJob(job, cfg, Resolve(wild, hosts[i].addr), hosts[i].unit, hosts[i].path, topology)];
    }
    assert hosts[..|hosts|] == hosts;
  }

  /** Everything the expansion needs besides the jobs; `hostOf` is URL parsing. */
  datatype Env = Env(hosts: seq<Host>, topology: Topology, table: map<string, string>)

  function Plain(cfg: StaticConfig): seq<string> { Select(GetOr(cfg.targets, []), false) }

  function Wild(cfg: StaticConfig): seq<string> { Select(GetOr(cfg.targets, []), true) }

  /** The per-unit jobs of one config: matched units first, then every host for the wildcards. */
  function UnitJobs(job: Job, cfg: StaticConfig, e: Env, hostOf: string -> string): seq<Job> {
    var m := MatchAll(Plain(cfg), e.table, hostOf).matched;
    MatchedJobsOf(job, cfg, m.order, m.lists, e.hosts, e.topology)
    + (if Wild(cfg) == [] then [] else WildcardJobsOf(job, cfg, Wild(cfg), e.hosts, e.topology))
  }

  /** What is left of one config for the common job. */
  function LeftOver(cfg: StaticConfig, e: Env, hostOf: string -> string): seq<StaticConfig> {
    var ts := MatchAll(Plain(cfg), e.table, hostOf).unmatched;
    if ts == [] then [] else [LeftOverConfig(cfg, ts, e.topology)]
  }

  function AllUnitJobs(job: Job, cfgs: seq<StaticConfig>, e: Env, hostOf: string -> string): seq<Job> {
    if cfgs == [] then []
    else AllUnitJobs(job, cfgs[..|cfgs| - 1], e, hostOf) + UnitJobs(job, cfgs[|cfgs| - 1], e, hostOf)
  }

  function AllLeftOver(cfgs: seq<StaticConfig>, e: Env, hostOf: string -> string): seq<StaticConfig> {
    if cfgs == [] then []
    else AllLeftOver(cfgs[..|cfgs| - 1], e, hostOf) + LeftOver(cfgs[|cfgs| - 1], e, hostOf)
  }

  function Expanded(job: Job, e: Env, hostOf: string -> string): seq<Job> {
    var cfgs := GetOr(job.configs, []);
    var left := AllLeftOver(cfgs, e, hostOf);
    AllUnitJobs(job, cfgs, e, hostOf) + (if left == [] then [] else [LeftOverJob(job, left, e.topology)])
  }

  function ExpandedAll(jobs: seq<Job>, e: Env, hostOf: string -> string): seq<Job> {
    if jobs == [] then [] else ExpandedAll(jobs[..|jobs| - 1], e, hostOf) + Expanded(jobs[|jobs| - 1], e, hostOf)
  }

  lemma {:induction false} NoWildNoTarget(hosts: seq<Host>)
    ensures PerHost([], hosts) == multiset{}
  {
    if hosts != [] {
      NoWildNoTarget(hosts[..|hosts| - 1]);
    }
  }

  lemma ConfigConserves(job: Job, cfg: StaticConfig, e: Env, hostOf: string -> string)
    ensures JobTargets(UnitJobs(job, cfg, e, hostOf)) + ConfigTargets(LeftOver(cfg, e, hostOf)) ==
            ExpectedOfConfig(cfg, e.hosts)
  {
    var s := MatchAll(Plain(cfg), e.table, hostOf);
    MatchConserves(Plain(cfg), e.table, hostOf);
    MatchedJobsTargets(job, cfg, s.matched.order, s.matched.lists, e.hosts, e.topology);
    WildcardJobsTargets(job, cfg, Wild(cfg), e.hosts, e.topology);
    NoWildNoTarget(e.hosts);
    LeftOverTargets(cfg, e, hostOf);
    JobTargetsConcat(MatchedJobsOf(job, cfg, s.matched.order, s.matched.lists, e.hosts, e.topology),
                     if Wild(cfg) == [] then [] else WildcardJobsOf(job, cfg, Wild(cfg), e.hosts, e.topology));
  }

  lemma LeftOverTargets(cfg: StaticConfig, e: Env, hostOf: string -> string)
    ensures ConfigTargets(LeftOver(cfg, e, hostOf)) == multiset(MatchAll(Plain(cfg), e.table, hostOf).unmatched)
  {
    var left := LeftOver(cfg, e, hostOf);
    if left != [] {
      assert left[..0] == [];
      assert ConfigTargets(left) == multiset{} + multiset(MatchAll(Plain(cfg), e.table, hostOf).unmatched);
    }
  }

  lemma {:induction false} ConfigTargetsConcat(a: seq<StaticConfig>, b: seq<StaticConfig>)
    ensures ConfigTargets(a + b) == ConfigTargets(a) + ConfigTargets(b)
  {
    if b == [] {
      assert a + b == a;
    } else {
      var n := |b| - 1;
      ConfigTargetsConcat(a, b[..n]);
      assert (a + b)[..|a + b| - 1] == a + b[..n] && (a + b)[|a + b| - 1] == b[n];
      SumAssociates(ConfigTargets(a), ConfigTargets(b[..n]), multiset(GetOr(b[n].targets, [])));
    }
  }

  lemma {:induction false} ConfigsConserve(job: Job, cfgs: seq<StaticConfig>, e: Env, hostOf: string -> string)
    ensures JobTargets(AllUnitJobs(job, cfgs, e, hostOf)) + ConfigTargets(AllLeftOver(cfgs, e, hostOf)) ==
            ExpectedOfConfigs(cfgs, e.hosts)
  {
    if cfgs != [] {
      var n := |cfgs| - 1;
      ConfigsConserve(job, cfgs[..n], e, hostOf);
      ConfigConserves(job, cfgs[n], e, hostOf);
      JobTargetsConcat(AllUnitJobs(job, cfgs[..n], e, hostOf), UnitJobs(job, cfgs[n], e, hostOf));
      ConfigTargetsConcat(AllLeftOver(cfgs[..n], e, hostOf), LeftOver(cfgs[n], e, hostOf));
    }
  }

  lemma JobConserves(job: Job, e: Env, hostOf: string -> string)
    ensures JobTargets(Expanded(job, e, hostOf)) == ExpectedOfConfigs(GetOr(job.configs, []), e.hosts)
  {
    var cfgs := GetOr(job.configs, []);
    var unit, left := AllUnitJobs(job, cfgs, e, hostOf), AllLeftOver(cfgs, e, hostOf);
    ConfigsConserve(job, cfgs, e, hostOf);
    if left == [] {
      assert Expanded(job, e, hostOf) == unit;
    } else {
      OneJobTargets(LeftOverJob(job, left, e.topology), left);
      JobTargetsConcat(unit, [LeftOverJob(job, left, e.topology)]);
    }
  }

  /** No target is lost, invented or repeated beyond once per host. */
  lemma {:induction false} TargetsConserved(jobs: seq<Job>, e: Env, hostOf: string -> string)
    ensures JobTargets(ExpandedAll(jobs, e, hostOf)) == Expected(jobs, e.hosts)
  {
    if jobs != [] {
      var n := |jobs| - 1;
      TargetsConserved(jobs[..n], e, hostOf);
      JobConserves(jobs[n], e, hostOf);
      JobTargetsConcat(ExpandedAll(jobs[..n], e, hostOf), Expanded(jobs[n], e, hostOf));
    }
  }

  /** Targets listed under a unit carry the address or FQDN of a host of that unit. */
  lemma MatchedByOwner(cfg: StaticConfig, e: Env, hostOf: string -> string, u: string, t: string)
    requires e.table == HostToUnit(e.hosts, e.topology)
    requires var m := MatchAll(Plain(cfg), e.table, hostOf).matched; u in m.lists && t in m.lists[u]
    ensures exists i :: 0 <= i < |e.hosts| && e.hosts[i].unit == u && Owns(e.hosts[i], hostOf(t))
  {
    MatchConserves(Plain(cfg), e.table, hostOf);
    TableIsRight(e.hosts, e.topology, hostOf(t));
  }

  /** A target is left over exactly when no unit is known for its host. */
  lemma LeftOverIsUnknown(cfg: StaticConfig, e: Env, hostOf: string -> string, t: string)
    requires t in Plain(cfg)
    ensures t in MatchAll(Plain(cfg), e.table, hostOf).unmatched <==> !Known(e.table, hostOf(t))
  {
    MatchConserves(Plain(cfg), e.table, hostOf);
    var s := MatchAll(Plain(cfg), e.table, hostOf);
    assert t in multiset(Plain(cfg));
    if t !in s.unmatched {
      assert t in MatchedTargets(s.matched.order, s.matched.lists);
      InSomeList(s.matched.order, s.matched.lists, t);
    }
  }

  lemma {:induction false} InSomeList(order: seq<string>, lists: map<string, seq<string>>, t: string)
    requires t in MatchedTargets(order, lists)
    ensures exists u :: u in lists && t in lists[u]
  {
    var n := |order| - 1;
    if t in MatchedTargets(order[..n], lists) {
      InSomeList(order[..n], lists, t);
    } else {
      assert order[n] in lists && t in lists[order[n]];
    }
  }

  // What the expected targets are, one by one.

  lemma {:induction false} ResolveHas(ts: seq<string>, host: string, w: string)
    requires w in ts
    ensures |Resolve(ts, host)| == |ts| && ReplaceStar(w, host) in Resolve(ts, host)
  {
    var n := |ts| - 1;
    if w in ts[..n] {
      ResolveHas(ts[..n], host, w);
    } else {
      assert w == ts[n];
      if n > 0 { ResolveHas(ts[..n], host, ts[0]); }
    }
  }

  lemma ResolveSize(ts: seq<string>, host: string)
    ensures |Resolve(ts, host)| == |ts|
  {
    if ts != [] { ResolveHas(ts, host, ts[0]); }
  }

  lemma EarlierHostsHave(ts: seq<string>, hosts: seq<Host>, t: string)
    requires hosts != [] && t in PerHost(ts, hosts[..|hosts| - 1])
    ensures t in PerHost(ts, hosts)
  {
  }

  lemma LastHostHas(ts: seq<string>, hosts: seq<Host>, w: string)
    requires hosts != [] && w in ts
    ensures ReplaceStar(w, hosts[|hosts| - 1].addr) in PerHost(ts, hosts)
  {
    ResolveHas(ts, hosts[|hosts| - 1].addr, w);
  }

  lemma {:induction false} PerHostHas(ts: seq<string>, hosts: seq<Host>, w: string, h: nat)
    requires w in ts && h < |hosts|
    ensures ReplaceStar(w, hosts[h].addr) in PerHost(ts, hosts)
  {
    if h == |hosts| - 1 {
      LastHostHas(ts, hosts, w);
    } else {
      PerHostHas(ts, hosts[..|hosts| - 1], w, h);
      EarlierHostsHave(ts, hosts, ReplaceStar(w, hosts[h].addr));
    }
  }

  lemma TimesNext(a: nat, n: nat)
    ensures a * (n + 1) == a * n + a
  {
  }

  lemma SumSize(a: multiset<string>, ts: seq<string>)
    ensures |a + multiset(ts)| == |a| + |ts|
  {
  }

  lemma {:induction false} PerHostSize(ts: seq<string>, hosts: seq<Host>)
    ensures |PerHost(ts, hosts)| == |ts| * |hosts|
  {
    if hosts != [] {
      var n := |hosts| - 1;
      var resolved := Resolve(ts, hosts[n].addr);
      PerHostSize(ts, hosts[..n]);
      ResolveSize(ts, hosts[n].addr);
      SumSize(PerHost(ts, hosts[..n]), resolved);
      TimesNext(|ts|, n);
    }
  }

  /** A config gives one target for each plain one, and one per host for each wildcard. */
  lemma ExpectedSize(cfg: StaticConfig, hosts: seq<Host>)
    ensures |ExpectedOfConfig(cfg, hosts)| == |Plain(cfg)| + |Wild(cfg)| * |hosts|
  {
    PerHostSize(Wild(cfg), hosts);
  }

  /** Nothing of a config is missing from its expected targets. */
  lemma ConfigHas(cfg: StaticConfig, hosts: seq<Host>, t: string)
    requires t in GetOr(cfg.targets, [])
    ensures t == [] || t[0] != '*' ==> t in ExpectedOfConfig(cfg, hosts)
    ensures t != [] && t[0] == '*' ==>
              forall h :: 0 <= h < |hosts| ==> ReplaceStar(t, hosts[h].addr) in ExpectedOfConfig(cfg, hosts)
  {
    SelectMeans(GetOr(cfg.targets, []));
    if t != [] && t[0] == '*' {
      forall h | 0 <= h < |hosts| ensures ReplaceStar(t, hosts[h].addr) in PerHost(Wild(cfg), hosts) {
        PerHostHas(Wild(cfg), hosts, t, h);
      }
    }
  }

  lemma LastConfigHas(cfgs: seq<StaticConfig>, hosts: seq<Host>, t: string)
    requires cfgs != [] && t in ExpectedOfConfig(cfgs[|cfgs| - 1], hosts)
    ensures t in ExpectedOfConfigs(cfgs, hosts)
  {
  }

  lemma EarlierConfigsHave(cfgs: seq<StaticConfig>, hosts: seq<Host>, t: string)
    requires cfgs != [] && t in ExpectedOfConfigs(cfgs[..|cfgs| - 1], hosts)
    ensures t in ExpectedOfConfigs(cfgs, hosts)
  {
  }

  lemma {:induction false} ConfigsHave(cfgs: seq<StaticConfig>, hosts: seq<Host>, k: nat, t: string)
    requires k < |cfgs| && t in ExpectedOfConfig(cfgs[k], hosts)
    ensures t in ExpectedOfConfigs(cfgs, hosts)
  {
    if k == |cfgs| - 1 {
      LastConfigHas(cfgs, hosts, t);
    } else {
      ConfigsHave(cfgs[..|cfgs| - 1], hosts, k, t);
      EarlierConfigsHave(cfgs, hosts, t);
    }
  }

  lemma LastJobHas(jobs: seq<Job>, hosts: seq<Host>, t: string)
    requires jobs != [] && t in ExpectedOfConfigs(GetOr(jobs[|jobs| - 1].configs, []), hosts)
    ensures t in Expected(jobs, hosts)
  {
  }

  lemma EarlierJobsHave(jobs: seq<Job>, hosts: seq<Host>, t: string)
    requires jobs != [] && t in Expected(jobs[..|jobs| - 1], hosts)
    ensures t in Expected(jobs, hosts)
  {
  }

  lemma {:induction false} JobsHave(jobs: seq<Job>, hosts: seq<Host>, i: nat, t: string)
    requires i < |jobs| && t in ExpectedOfConfigs(GetOr(jobs[i].configs, []), hosts)
    ensures t in Expected(jobs, hosts)
  {
    if i == |jobs| - 1 {
      LastJobHas(jobs, hosts, t);
    } else {
      JobsHave(jobs[..|jobs| - 1], hosts, i, t);
      EarlierJobsHave(jobs, hosts, t);
    }
  }

  /** Every plain target, and every wildcard at every host, is among the output targets. */
  lemma NothingMissing(jobs: seq<Job>, hosts: seq<Host>, i: nat, k: nat, t: string)
    requires i < |jobs| && k < |GetOr(jobs[i].configs, [])| && t in GetOr(GetOr(jobs[i].configs, [])[k].targets, [])
    ensures t == [] || t[0] != '*' ==> t in Expected(jobs, hosts)
    ensures t != [] && t[0] == '*' ==>
              forall h :: 0 <= h < |hosts| ==> ReplaceStar(t, hosts[h].addr) in Expected(jobs, hosts)
  {
    var cfgs := GetOr(jobs[i].configs, []);
    ConfigHas(cfgs[k], hosts, t);
    if t == [] || t[0] != '*' {
      ConfigsHave(cfgs, hosts, k, t);
      JobsHave(jobs, hosts, i, t);
    } else {
      forall h | 0 <= h < |hosts| ensures ReplaceStar(t, hosts[h].addr) in Expected(jobs, hosts) {
        ConfigsHave(cfgs, hosts, k, ReplaceStar(t, hosts[h].addr));
        JobsHave(jobs, hosts, i, ReplaceStar(t, hosts[h].addr));
      }
    }
  }

  // Where every output job comes from.

  /** What was written in a config stays: its labels and everything but labels and targets. */
  ghost predicate KeepsConfig(cfg: StaticConfig, made: StaticConfig) {
    GetOr(cfg.labels, map[]).Items <= GetOr(made.labels, map[]).Items && made.other == cfg.other
  }

  /** A plain target of the config whose host part is the address or FQDN of a host of the unit. */
  ghost predicate OwnedBy(t: string, cfg: StaticConfig, unit: string, e: Env, hostOf: string -> string) {
    t in Plain(cfg) && exists q :: 0 <= q < |e.hosts| && e.hosts[q].unit == unit && Owns(e.hosts[q], hostOf(t))
  }

  /** A wildcard of the config with its star replaced: for `*:port`, the host's address and the port. */
  ghost predicate ResolvedAt(t: string, cfg: StaticConfig, host: Host) {
    exists w :: && w in Wild(cfg) && w != [] && w[0] == '*' && t == ReplaceStar(w, host.addr)
                && (Free(w[1..], '*') ==> t == host.addr + w[1..])
  }

  /** The labels put on a config: its author's own before the unit's, and those before the topology's. */
  ghost predicate RightLabels(cfg: StaticConfig, made: StaticConfig, topology: Topology, unit: Labels) {
    if topology.None? then made.labels == cfg.labels
    else
      var own, all := GetOr(cfg.labels, map[]), GetOr(made.labels, map[]);
      && (forall k :: k in all <==> k in own || k in unit || k in topology.value)
      && (forall k :: k in all ==>
            all[k] == if k in own then own[k] else if k in unit then unit[k] else topology.value[k])
  }

  predicate IsPath(o: Job, job: Job, prefix: string) {
    o.path == Some(prefix + if job.path.Some? && job.path.value != "" then job.path.value else "/metrics")
  }

  predicate Relabelled(o: Job, job: Job, topology: Topology, rule: Relabel) {
    o.relabel == if topology.Some? then Some(GetOr(job.relabel, []) + [rule]) else job.relabel
  }

  /** A job for one unit, from one config: each target is the unit's own or a wildcard resolved at its host. */
  ghost predicate ForUnit(o: Job, job: Job, cfg: StaticConfig, host: Host, e: Env, hostOf: string -> string) {
    && o.name == Some(GetOr(job.name, "unnamed-job") + "-" + UnitNumber(host.unit))
    && IsPath(o, job, host.path) && Relabelled(o, job, e.topology, ByUnit)
    && o.configs.Some? && |o.configs.value| == 1
    && var made := o.configs.value[0];
    && KeepsConfig(cfg, made) && RightLabels(cfg, made, e.topology, map["juju_unit" := host.unit])
    && forall t :: t in GetOr(made.targets, []) ==> OwnedBy(t, cfg, host.unit, e, hostOf) || ResolvedAt(t, cfg, host)
  }

  /** A leftover config: each target is a plain one of its config and its host is not known. */
  ghost predicate LeftOf(made: StaticConfig, cfg: StaticConfig, e: Env, hostOf: string -> string) {
    && KeepsConfig(cfg, made) && RightLabels(cfg, made, e.topology, map[])
    && forall t :: t in GetOr(made.targets, []) ==> t in Plain(cfg) && !Known(e.table, hostOf(t))
  }

  ghost predicate IsUnitJob(o: Job, job: Job, cfg: StaticConfig, e: Env, hostOf: string -> string) {
    exists h :: 0 <= h < |e.hosts| && ForUnit(o, job, cfg, e.hosts[h], e, hostOf)
  }

  ghost predicate IsLeftOver(o: Job, job: Job, e: Env, hostOf: string -> string) {
    && o.name == job.name && o.configs.Some?
    && IsPath(o, job, "") && Relabelled(o, job, e.topology, ByApplication)
    && forall made :: made in o.configs.value ==> FromSome(made, GetOr(job.configs, []), e, hostOf)
  }

  ghost predicate FromSome(made: StaticConfig, cfgs: seq<StaticConfig>, e: Env, hostOf: string -> string) {
    exists i :: 0 <= i < |cfgs| && LeftOf(made, cfgs[i], e, hostOf)
  }

  ghost predicate SomeUnitJob(o: Job, job: Job, cfgs: seq<StaticConfig>, e: Env, hostOf: string -> string) {
    exists i :: 0 <= i < |cfgs| && IsUnitJob(o, job, cfgs[i], e, hostOf)
  }

  /** The output job is one unit's share of one config of the job, or what is left of the job. */
  ghost predicate Explains(job: Job, o: Job, e: Env, hostOf: string -> string) {
    && o.other == job.other && GetOr(job.relabel, []) <= GetOr(o.relabel, [])
    && (SomeUnitJob(o, job, GetOr(job.configs, []), e, hostOf) || IsLeftOver(o, job, e, hostOf))
  }

  /** Every list holds something, and only targets of `ts`. */
  ghost predicate ListsFrom(m: Matched, ts: seq<string>) {
    forall u :: u in m.lists ==> m.lists[u] != [] && forall t :: t in m.lists[u] ==> t in ts
  }

  lemma AppendFrom(m: Matched, ts: seq<string>, u: string, t: string)
    requires ListsFrom(m, ts)
    ensures ListsFrom(Append(m, u, t), ts + [t])
  {
    var m' := Append(m, u, t);
    forall v | v in m'.lists ensures m'.lists[v] != [] && forall x :: x in m'.lists[v] ==> x in ts + [t] {
      if v in m.lists {
        assert forall x :: x in m.lists[v] ==> x in ts;
      }
    }
  }

  lemma {:induction false} MatchMembers(ts: seq<string>, table: map<string, string>, hostOf: string -> string)
    ensures ListsFrom(MatchAll(ts, table, hostOf).matched, ts)
    ensures forall t :: t in MatchAll(ts, table, hostOf).unmatched ==> t in ts
  {
    if ts != [] {
      var n := |ts| - 1;
      var s := MatchAll(ts[..n], table, hostOf);
      MatchMembers(ts[..n], table, hostOf);
      assert ts == ts[..n] + [ts[n]];
      if Known(table, hostOf(ts[n])) { AppendFrom(s.matched, ts[..n], table[hostOf(ts[n])], ts[n]); }
    }
  }

  lemma {:induction false} ResolveMembers(ts: seq<string>, host: string, t: string)
    requires t in Resolve(ts, host)
    ensures exists w :: w in ts && t == ReplaceStar(w, host)
  {
    var n := |ts| - 1;
    if t in Resolve(ts[..n], host) {
      ResolveMembers(ts[..n], host, t);
    } else {
      assert ts[n] in ts;
    }
  }

  lemma PerUnitKeeps(job: Job, cfg: StaticConfig, ts: seq<string>, host: Host, e: Env, hostOf: string -> string)
    requires forall t :: t in ts ==> OwnedBy(t, cfg, host.unit, e, hostOf) || ResolvedAt(t, cfg, host)
    ensures ForUnit(PerUnitJob(job, cfg, ts, host.unit, host.path, e.topology), job, cfg, host, e, hostOf)
  {
    UserLabelsSurvive(cfg, ts, host.unit, e.topology);
  }

  /** The path prefix of a unit is that of its last host. */
  lemma {:induction false} PathOfHost(hosts: seq<Host>, unit: string) returns (h: nat)
    requires exists i :: 0 <= i < |hosts| && hosts[i].unit == unit
    ensures h < |hosts| && hosts[h].unit == unit && PathOf(hosts, unit) == hosts[h].path
    ensures forall j :: h < j < |hosts| ==> hosts[j].unit != unit
  {
    h := |hosts| - 1;
    if hosts[h].unit != unit {
      var i :| 0 <= i < |hosts| && hosts[i].unit == unit;
      assert hosts[..h][i].unit == unit;
      h := PathOfHost(hosts[..h], unit);
    }
  }

  lemma {:induction false} MatchedJobsFrom(job: Job, cfg: StaticConfig, order: seq<string>,
                                           lists: map<string, seq<string>>, hosts: seq<Host>,
                                           topology: Topology, o: Job)
    requires o in MatchedJobsOf(job, cfg, order, lists, hosts, topology)
    ensures exists u :: u in order &&
              o == PerUnitJob(job, cfg, if u in lists then lists[u] else [], u, PathOf(hosts, u), topology)
  {
    var n := |order| - 1;
    if o in MatchedJobsOf(job, cfg, order[..n], lists, hosts, topology) {
      MatchedJobsFrom(job, cfg, order[..n], lists, hosts, topology, o);
    } else {
      assert order[n] in order;
    }
  }

  lemma MatchedJobIsUnits(job: Job, cfg: StaticConfig, e: Env, hostOf: string -> string, o: Job)
    requires e.table == HostToUnit(e.hosts, e.topology)
    requires var m := MatchAll(Plain(cfg), e.table, hostOf).matched;
             o in MatchedJobsOf(job, cfg, m.order, m.lists, e.hosts, e.topology)
    ensures IsUnitJob(o, job, cfg, e, hostOf)
  {
    var m := MatchAll(Plain(cfg), e.table, hostOf).matched;
    MatchConserves(Plain(cfg), e.table, hostOf);
    MatchMembers(Plain(cfg), e.table, hostOf);
    MatchedJobsFrom(job, cfg, m.order, m.lists, e.hosts, e.topology, o);
    var u :| u in m.order &&
             o == PerUnitJob(job, cfg, if u in m.lists then m.lists[u] else [], u, PathOf(e.hosts, u), e.topology);
    forall t | t in m.lists[u] ensures OwnedBy(t, cfg, u, e, hostOf) {
      MatchedByOwner(cfg, e, hostOf, u, t);
    }
    assert OwnedBy(m.lists[u][0], cfg, u, e, hostOf);
    var h := PathOfHost(e.hosts, u);
    PerUnitKeeps(job, cfg, m.lists[u], e.hosts[h], e, hostOf);
  }

  lemma {:induction false} WildcardJobsFrom(job: Job, cfg: StaticConfig, wild: seq<string>, hosts: seq<Host>,
                                            topology: Topology, o: Job)
    requires o in WildcardJobsOf(job, cfg, wild, hosts, topology)
    ensures exists h :: 0 <= h < |hosts| &&
              o == PerUnitJob(job, cfg, Resolve(wild, hosts[h].addr), hosts[h].unit, hosts[h].path, topology)
  {
    var n := |hosts| - 1;
    if o in WildcardJobsOf(job, cfg, wild, hosts[..n], topology) {
      WildcardJobsFrom(job, cfg, wild, hosts[..n], topology, o);
      var h :| 0 <= h < n &&
        o == PerUnitJob(job, cfg, Resolve(wild, hosts[..n][h].addr), hosts[..n][h].unit, hosts[..n][h].path, topology);
      assert hosts[h] == hosts[..n][h];
    }
  }

  lemma ResolvedTargets(cfg: StaticConfig, host: Host)
    ensures forall t :: t in Resolve(Wild(cfg), host.addr) ==> ResolvedAt(t, cfg, host)
  {
    SelectMeans(GetOr(cfg.targets, []));
    forall t | t in Resolve(Wild(cfg), host.addr) ensures ResolvedAt(t, cfg, host) {
      ResolveMembers(Wild(cfg), host.addr, t);
      var w :| w in Wild(cfg) && t == ReplaceStar(w, host.addr);
      assert w == "*" + w[1..];
      if Free(w[1..], '*') { ReplaceFirst(w[1..], host.addr); }
    }
  }

  lemma WildcardJobIsUnits(job: Job, cfg: StaticConfig, e: Env, hostOf: string -> string, o: Job)
    requires o in WildcardJobsOf(job, cfg, Wild(cfg), e.hosts, e.topology)
    ensures IsUnitJob(o, job, cfg, e, hostOf)
  {
    WildcardJobsFrom(job, cfg, Wild(cfg), e.hosts, e.topology, o);
    var h :| 0 <= h < |e.hosts| &&
             o == PerUnitJob(job, cfg, Resolve(Wild(cfg), e.hosts[h].addr), e.hosts[h].unit, e.hosts[h].path,
                             e.topology);
    ResolvedTargets(cfg, e.hosts[h]);
    PerUnitKeeps(job, cfg, Resolve(Wild(cfg), e.hosts[h].addr), e.hosts[h], e, hostOf);
  }

  lemma {:induction false} UnitJobsFrom(job: Job, cfgs: seq<StaticConfig>, e: Env, hostOf: string -> string, o: Job)
    requires e.table == HostToUnit(e.hosts, e.topology) && o in AllUnitJobs(job, cfgs, e, hostOf)
    ensures SomeUnitJob(o, job, cfgs, e, hostOf)
  {
    var n := |cfgs| - 1;
    if o in AllUnitJobs(job, cfgs[..n], e, hostOf) {
      UnitJobsFrom(job, cfgs[..n], e, hostOf, o);
      var i :| 0 <= i < n && IsUnitJob(o, job, cfgs[..n][i], e, hostOf);
      assert cfgs[i] == cfgs[..n][i];
    } else {
      var m := MatchAll(Plain(cfgs[n]), e.table, hostOf).matched;
      if o in MatchedJobsOf(job, cfgs[n], m.order, m.lists, e.hosts, e.topology) {
        MatchedJobIsUnits(job, cfgs[n], e, hostOf, o);
      } else {
        WildcardJobIsUnits(job, cfgs[n], e, hostOf, o);
      }
    }
  }

  lemma LeftOverLabels(cfg: StaticConfig, ts: seq<string>, topology: Topology)
    ensures RightLabels(cfg, LeftOverConfig(cfg, ts, topology), topology, map[])
    ensures KeepsConfig(cfg, LeftOverConfig(cfg, ts, topology))
  {
  }

  lemma LeftOverKeeps(cfg: StaticConfig, e: Env, hostOf: string -> string)
    ensures forall made :: made in LeftOver(cfg, e, hostOf) ==> LeftOf(made, cfg, e, hostOf)
  {
    var ts := MatchAll(Plain(cfg), e.table, hostOf).unmatched;
    MatchConserves(Plain(cfg), e.table, hostOf);
    MatchMembers(Plain(cfg), e.table, hostOf);
    LeftOverLabels(cfg, ts, e.topology);
  }

  lemma {:induction false} LeftOverFrom(cfgs: seq<StaticConfig>, e: Env, hostOf: string -> string, made: StaticConfig)
    requires made in AllLeftOver(cfgs, e, hostOf)
    ensures FromSome(made, cfgs, e, hostOf)
  {
    var n := |cfgs| - 1;
    if made in AllLeftOver(cfgs[..n], e, hostOf) {
      LeftOverFrom(cfgs[..n], e, hostOf, made);
      var i :| 0 <= i < n && LeftOf(made, cfgs[..n][i], e, hostOf);
      assert cfgs[i] == cfgs[..n][i];
    } else {
      LeftOverKeeps(cfgs[n], e, hostOf);
    }
  }

  lemma {:induction false} UnitJobsKeepJob(job: Job, cfgs: seq<StaticConfig>, e: Env, hostOf: string -> string, o: Job)
    requires o in AllUnitJobs(job, cfgs, e, hostOf)
    ensures o.other == job.other && GetOr(job.relabel, []) <= GetOr(o.relabel, [])
  {
    var n := |cfgs| - 1;
    if o in AllUnitJobs(job, cfgs[..n], e, hostOf) {
      UnitJobsKeepJob(job, cfgs[..n], e, hostOf, o);
    } else {
      var m := MatchAll(Plain(cfgs[n]), e.table, hostOf).matched;
      if o in MatchedJobsOf(job, cfgs[n], m.order, m.lists, e.hosts, e.topology) {
        MatchedJobsFrom(job, cfgs[n], m.order, m.lists, e.hosts, e.topology, o);
      } else {
        WildcardJobsFrom(job, cfgs[n], Wild(cfgs[n]), e.hosts, e.topology, o);
      }
    }
  }

  lemma LeftOverJobFrom(job: Job, e: Env, hostOf: string -> string)
    ensures var o := LeftOverJob(job, AllLeftOver(GetOr(job.configs, []), e, hostOf), e.topology);
            && o.other == job.other && GetOr(job.relabel, []) <= GetOr(o.relabel, []) && IsLeftOver(o, job, e, hostOf)
  {
    var cfgs := GetOr(job.configs, []);
    forall made | made in AllLeftOver(cfgs, e, hostOf) ensures FromSome(made, cfgs, e, hostOf) {
      LeftOverFrom(cfgs, e, hostOf, made);
    }
    assert "" + MetricsPath(job) == MetricsPath(job);
  }

  lemma ExpandedFrom(job: Job, e: Env, hostOf: string -> string, o: Job)
    requires e.table == HostToUnit(e.hosts, e.topology) && o in Expanded(job, e, hostOf)
    ensures Explains(job, o, e, hostOf)
  {
    var cfgs := GetOr(job.configs, []);
    if o in AllUnitJobs(job, cfgs, e, hostOf) {
      UnitJobsFrom(job, cfgs, e, hostOf, o);
      UnitJobsKeepJob(job, cfgs, e, hostOf, o);
    } else {
      LeftOverJobFrom(job, e, hostOf);
    }
  }

  /**
   Every output job is explained by an input job: it is one host unit's share of one config, whose labels survive
   and whose targets that unit owns or are resolved at its host, or the job's rest, whose hosts are all unknown.
   */
  lemma {:induction false} OutputsExplained(jobs: seq<Job>, e: Env, hostOf: string -> string, o: Job)
    requires e.table == HostToUnit(e.hosts, e.topology) && o in ExpandedAll(jobs, e, hostOf)
    ensures exists i :: 0 <= i < |jobs| && Explains(jobs[i], o, e, hostOf)
  {
    var n := |jobs| - 1;
    if o in ExpandedAll(jobs[..n], e, hostOf) {
      OutputsExplained(jobs[..n], e, hostOf, o);
      var i :| 0 <= i < n && Explains(jobs[..n][i], o, e, hostOf);
      assert jobs[i] == jobs[..n][i];
    } else {
      ExpandedFrom(jobs[n], e, hostOf, o);
    }
  }

  method ExpandConfig(job: Job, cfg: StaticConfig, e: Env, hostOf: string -> string)
      returns (out: seq<Job>, left: seq<StaticConfig>)
    ensures out == UnitJobs(job, cfg, e, hostOf) && left == LeftOver(cfg, e, hostOf)
  {
    out, left := [], [];
    var wild, plain := ClassifyTargets(GetOr(cfg.targets, []));
    if plain != [] {
      var m, unmatched := MatchTargets(plain, e.table, hostOf);
      if unmatched != [] {
        left := [LeftOverConfig(cfg, unmatched, e.topology)];
      }
      MatchConserves(plain, e.table, hostOf);
      out := MatchedJobs(job, cfg, m, e.hosts, e.topology);
    }
    if wild != [] {
      var more := WildcardJobs(job, cfg, wild, e.hosts, e.topology);
      out := out + more;
    }
  }

  method ExpandJob(job: Job, e: Env, hostOf: string -> string) returns (out: seq<Job>)
    ensures out == Expanded(job, e, hostOf)
  {
    out := [];
    var cfgs := GetOr(job.configs, []);
    var unmatched := [];
    for i := 0 to |cfgs|
      invariant out == AllUnitJobs(job, cfgs[..i], e, hostOf) && unmatched == AllLeftOver(cfgs[..i], e, hostOf)
    {
      assert cfgs[..i + 1][..i] == cfgs[..i];
      var more, left := ExpandConfig(job, cfgs[i], e, hostOf);
      out, unmatched := out + more, unmatched + left;
    }
    assert cfgs[..|cfgs|] == cfgs;
    if unmatched != [] {
      out := out + [LeftOverJob(job, unmatched, e.topology)];
    }
  }

  /** `expand_wildcard_targets_into_individual_jobs`. */
  method ExpandTargets(jobs: seq<Job>, hosts: seq<Host>, topology: Topology, hostOf: string -> string)
      returns (out: seq<Job>)
    ensures out == ExpandedAll(jobs, Env(hosts, topology, HostToUnit(hosts, topology)), hostOf)
    ensures JobTargets(out) == Expected(jobs, hosts)
    ensures forall o :: o in out ==>
              exists i :: 0 <= i < |jobs|
                && Explains(jobs[i], o, Env(hosts, topology, HostToUnit(hosts, topology)), hostOf)
  {
    out := [];
    var e := Env(hosts, topology, HostToUnit(hosts, topology));
    for i := 0 to |jobs|
      invariant out == ExpandedAll(jobs[..i], e, hostOf)
    {
      assert jobs[..i + 1][..i] == jobs[..i];
      var more := ExpandJob(jobs[i], e, hostOf);
      out := out + more;
    }
    assert jobs[..|jobs|] == jobs;
    TargetsConserved(jobs, e, hostOf);
    forall o | o in out ensures exists i :: 0 <= i < |jobs| && Explains(jobs[i], o, e, hostOf) {
      OutputsExplained(jobs, e, hostOf, o);
    }
  }
}
