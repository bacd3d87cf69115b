/** Rule resolution and GPU inventory (sparkscope/hardware.py). */
module Hardware {
  import opened Options
  import opened MetricKeys

  /** A warning level and, if any, a critical level; `None` in a rule map is an explicit null. */
  datatype Limits = Limits(warning: real, critical: Option<real>)

  type Rules = map<string, Option<Limits>>

  datatype DeviceRules = DeviceRules(profile: string, metrics: Rules, gpus: map<string, Rules>)

  /** `profiles` maps a profile name to its metric rules. */
  datatype Overrides = Overrides(profiles: map<string, Rules>, devices: map<string, DeviceRules>)

  datatype Source = Global | Profile | Device | Gpu | Unconfigured

  datatype Selected = Selected(limits: Option<Limits>, source: Source, component: Option<string>)

  const DEFAULT_THRESHOLDS: Rules := map[
    "cpu.temp_max_c" := Some(Limits(75.0, Some(85.0))),
    "gpu.temp_c" := Some(Limits(80.0, Some(90.0))),
    "gpu.power_draw_w" := Some(Limits(200.0, None)),
    "disk.root_used_pct" := Some(Limits(80.0, Some(95.0))),
    "memory.used_pct" := Some(Limits(90.0, None)),
    "gpu.ecc_uncorrected" := Some(Limits(1.0, Some(1.0))),
    "gpu.throttle_active" := Some(Limits(1.0, None))]

  // ---------------------------------------------------------------- resolution

  predicate IsGpuMetric(metric: string)
  {
    |metric| >= 4 && metric[..4] == "gpu."
  }

  /** The device has at least one metric keyed by a GPU identity. */
  predicate Stable(metrics: set<string>)
  {
    exists m :: m in metrics && ComponentMetric(m).0.Some?
  }

  /** The metrics a rule is looked up for. */
  predicate Considered(metrics: set<string>, global: Rules, metric: string)
  {
    && (metric in metrics || (metric in global && (!IsGpuMetric(metric) || !Stable(metrics))))
    && !(Stable(metrics) && IsGpuMetric(metric) && ComponentMetric(metric).0.None?)
  }

  function RulesOfDevice(overrides: Overrides, device: string): DeviceRules
  {
    if device in overrides.devices then overrides.devices[device] else DeviceRules("", map[], map[])
  }

  function ProfileRules(overrides: Overrides, device: string): Rules
  {
    var profile := RulesOfDevice(overrides, device).profile;
    if profile in overrides.profiles then overrides.profiles[profile] else map[]
  }

  function GpuRules(overrides: Overrides, device: string, component: Option<string>): Rules
  {
    var gpus := RulesOfDevice(overrides, device).gpus;
    if component.Some? && component.value in gpus then gpus[component.value] else map[]
  }

  /** Temperature and power limits of a single GPU must be configured before they apply. */
  predicate NeedsConfiguration(global: Option<Rules>, component: Option<string>, canonical: string)
  {
    global.None? && component.Some? && canonical in {"gpu.temp_c", "gpu.power_draw_w"}
  }

  /** The rule of a metric: the most specific source that names its canonical metric, even with a null, decides. */
  function MostSpecific(device: string, global: Option<Rules>, overrides: Overrides, metric: string): Option<Selected>
  {
    var (component, canonical) := ComponentMetric(metric);
    var gpu, own := GpuRules(overrides, device, component), RulesOfDevice(overrides, device).metrics;
    var profile := ProfileRules(overrides, device);
    var base := if global.Some? then global.value else DEFAULT_THRESHOLDS;
    if canonical in gpu then Some(Selected(gpu[canonical], Gpu, component))
    else if canonical in own then Some(Selected(own[canonical], Device, component))
    else if canonical in profile then Some(Selected(profile[canonical], Profile, component))
    else if canonical in base then
      if NeedsConfiguration(global, component, canonical) then Some(Selected(None, Unconfigured, component))
      else Some(Selected(base[canonical], Global, component))
    else None
  }

  /** Which source decides, read off the stored overrides: the component's own rules, then the device's, then those of its
      profile, then the global ones or the defaults; each only if it names the canonical metric, be it with a null. */
  lemma {:induction false} SourceDecides(device: string, global: Option<Rules>, overrides: Overrides, metric: string)
    ensures var (component, canonical) := ComponentMetric(metric);
            var rule := MostSpecific(device, global, overrides, metric);
            var known := device in overrides.devices;
            var profile := if known then overrides.devices[device].profile else "";
            var byGpu := known && component.Some? && component.value in overrides.devices[device].gpus
                         && canonical in overrides.devices[device].gpus[component.value];
            var byDevice := known && canonical in overrides.devices[device].metrics;
            var byProfile := profile in overrides.profiles && canonical in overrides.profiles[profile];
            var base := if global == None then DEFAULT_THRESHOLDS else global.value;
            && (byGpu ==>
                  rule == Some(Selected(overrides.devices[device].gpus[component.value][canonical], Gpu, component)))
            && (byDevice && !byGpu ==>
                  rule == Some(Selected(overrides.devices[device].metrics[canonical], Device, component)))
            && (byProfile && !byDevice && !byGpu ==>
                  rule == Some(Selected(overrides.profiles[profile][canonical], Profile, component)))
            && (!byProfile && !byDevice && !byGpu ==>
                  && (canonical in base <==> rule.Some?)
                  && (rule.Some? ==>
                        if && global == None && component != None
                           && (canonical == "gpu.temp_c" || canonical == "gpu.power_draw_w")
                        then rule.value == Selected(None, Unconfigured, component)
                        else rule.value == Selected(base[canonical], Global, component)))
  {
  }

  lemma {:induction false} ComponentIff(metric: string)
    ensures ComponentMetric(metric).0.Some?
            <==> exists id, field :: IsIdentity(id) && IsField(field) && metric == Key(id, field)
  {
    if ComponentMetric(metric).0.Some? {
      var (component, canonical) := ComponentMetric(metric);
      OnlyKeysHaveComponents(metric, component.value, canonical);
    }
    if exists id, field :: IsIdentity(id) && IsField(field) && metric == Key(id, field) {
      var id, field :| IsIdentity(id) && IsField(field) && metric == Key(id, field);
      KeyInverts(id, field);
    }
  }

  /** Which metrics are looked up: those polled and those with a global rule; on a device with a metric keyed by a GPU
      identity, GPU metrics only if they are polled and keyed by one too. */
  lemma {:induction false} ConsideredIff(metrics: set<string>, global: Rules, metric: string)
    ensures var keyed := (m: string) => exists id, field :: IsIdentity(id) && IsField(field) && m == Key(id, field);
            Considered(metrics, global, metric)
            <==> if (exists m :: m in metrics && keyed(m)) && "gpu." <= metric then metric in metrics && keyed(metric)
                 else metric in metrics || metric in global
  {
    ComponentIff(metric);
    forall m | m in metrics
      ensures ComponentMetric(m).0.Some? <==> exists id, field :: IsIdentity(id) && IsField(field) && m == Key(id, field)
    {
      ComponentIff(m);
    }
    assert "gpu." <= metric <==> IsGpuMetric(metric);
  }

  /** The loop over sources for one metric: later sources overwrite earlier ones. */
  method Select(device: string, global: Option<Rules>, overrides: Overrides, metric: string)
    returns (selected: Option<Selected>)
    ensures selected == MostSpecific(device, global, overrides, metric)
  {
    var (component, canonical) := ComponentMetric(metric);
    var base := if global.Some? then global.value else DEFAULT_THRESHOLDS;
    var sources := [(Global, base), (Profile, ProfileRules(overrides, device)),
                    (Device, RulesOfDevice(overrides, device).metrics)];
    if component.Some? {
      sources := sources + [(Gpu, GpuRules(overrides, device, component))];
    }
    selected := None;
    for n := 0 to |sources|
      invariant n == 0 ==> selected == None
      invariant n >= 1 ==> selected == FirstSources(sources[..n], global, component, canonical)
    {
      var (source, rules) := sources[n];
      assert sources[..n + 1][..n] == sources[..n];
      if canonical in rules {
        if source.Global? && NeedsConfiguration(global, component, canonical) {
          selected := Some(Selected(None, Unconfigured, component));
        } else {
          selected := Some(Selected(rules[canonical], source, component));
        }
      }
    }
    assert sources[..|sources|] == sources;
    LastSourceWins(sources, global, component, canonical);
  }

  /** What the loop has selected after some sources. */
  function FirstSources(sources: seq<(Source, Rules)>, global: Option<Rules>, component: Option<string>, canonical: string)
    : Option<Selected>
  {
    if sources == [] then None
    else
      var (source, rules) := sources[|sources| - 1];
      if canonical !in rules then FirstSources(sources[..|sources| - 1], global, component, canonical)
      else if source.Global? && NeedsConfiguration(global, component, canonical)
      then Some(Selected(None, Unconfigured, component))
      else Some(Selected(rules[canonical], source, component))
  }

  /** The fold over three or four sources, unrolled. */
  lemma {:induction false} LastSourceWins(sources: seq<(Source, Rules)>, global: Option<Rules>,
                                          component: Option<string>, canonical: string)
    requires 3 <= |sources| <= 4
    ensures FirstSources(sources, global, component, canonical)
            == if |sources| == 4 && canonical in sources[3].1 then FirstSources([sources[3]], global, component, canonical)
               else if canonical in sources[2].1 then FirstSources([sources[2]], global, component, canonical)
               else if canonical in sources[1].1 then FirstSources([sources[1]], global, component, canonical)
               else FirstSources([sources[0]], global, component, canonical)
  {
    assert sources[..|sources|] == sources;
    FirstStep(sources, 0, global, component, canonical);
    FirstStep(sources, 1, global, component, canonical);
    FirstStep(sources, 2, global, component, canonical);
    if |sources| == 4 {
      FirstStep(sources, 3, global, component, canonical);
    }
  }

  /** One more source decides, or leaves it to those before. */
  lemma {:induction false} FirstStep(sources: seq<(Source, Rules)>, n: nat, global: Option<Rules>,
                                     component: Option<string>, canonical: string)
    requires n < |sources|
    ensures FirstSources(sources[..n + 1], global, component, canonical)
            == if canonical in sources[n].1 then FirstSources([sources[n]], global, component, canonical)
               else FirstSources(sources[..n], global, component, canonical)
    ensures canonical !in sources[n].1 ==> FirstSources([sources[n]], global, component, canonical) == None
  {
    assert sources[..n + 1][..n] == sources[..n];
    assert [sources[n]][..0] == [];
  }

  /** `effective_rules`. */
  method EffectiveRules(device: string, metrics: set<string>, global: Option<Rules>, overrides: Overrides)
    returns (result: map<string, Selected>)
    ensures var base := if global.Some? then global.value else DEFAULT_THRESHOLDS;
            forall m :: Lookup(result, m) == if Considered(metrics, base, m)
                                             then MostSpecific(device, global, overrides, m) else None
  {
    var base := if global.Some? then global.value else DEFAULT_THRESHOLDS;
    var stable := Stable(metrics);
    var candidates := metrics + set m | m in base && !IsGpuMetric(m);
    if !stable {
      candidates := candidates + base.Keys;
    }
    result := map[];
    var todo := candidates;
    while todo != {}
      invariant todo <= candidates
      invariant forall m :: Lookup(result, m) == if m in candidates && m !in todo && Considered(metrics, base, m)
                                                 then MostSpecific(device, global, overrides, m) else None
      decreases todo
    {
      var metric :| metric in todo;
      todo := todo - {metric};
      if stable && IsGpuMetric(metric) && ComponentMetric(metric).0.None? {
        continue;
      }
      var selected := Select(device, global, overrides, metric);
      if selected.Some? {
        result := result[metric := selected.value];
      }
    }
  }

  /** On a device with GPU identities, a GPU rule is only ever applied per component: the aliases get none. */
  lemma {:induction false} AliasesIgnored(metrics: set<string>, global: Rules, id: string, field: string)
    requires IsIdentity(id) && IsField(field) && Key(id, field) in metrics
    ensures Considered(metrics, global, Key(id, field))
    ensures forall m :: IsGpuMetric(m) && ComponentMetric(m).0.None? ==> !Considered(metrics, global, m)
  {
    KeyInverts(id, field);
    assert ComponentMetric(Key(id, field)).0.Some?;
    assert Stable(metrics);
  }

  // ---------------------------------------------------------------- inventory

  datatype GpuRow = GpuRow(uuid: Option<string>, present: bool, details: string)

  /** `gpus` may be missing; `fields` holds every other entry of the device's info. */
  datatype Info = Info(gpus: Option<seq<GpuRow>>, fields: map<string, string>)

  /** What a discovery brings, with its GPU capability status and whether it verified the GPU list. */
  datatype Discovery = Discovery(info: Info, status: Option<string>, verified: bool)

  const PRESERVED := ["gpu", "gpu_names", "gpu_count", "capabilities"]

  predicate Unsuccessful(d: Discovery)
  {
    d.status == Some("unavailable") || (d.status == Some("unsupported") && !d.verified)
  }

  function Listed(gpus: Option<seq<GpuRow>>): seq<GpuRow>
  {
    if gpus.Some? then gpus.value else []
  }

  predicate HasUuid(gpus: seq<GpuRow>, uuid: string)
  {
    exists i :: 0 <= i < |gpus| && gpus[i].uuid == Some(uuid)
  }

  /** The known GPUs a discovery did not list, marked absent. */
  function Removed(known: seq<GpuRow>, current: seq<GpuRow>): seq<GpuRow>
  {
    if known == [] then []
    else
      var gpu := known[|known| - 1];
      Removed(known[..|known| - 1], current)
      + if gpu.uuid.Some? && gpu.uuid.value != "" && !HasUuid(current, gpu.uuid.value) then [gpu.(present := false)] else []
  }

  function Restricted(fields: map<string, string>): map<string, string>
  {
    map k | k in fields && k in PRESERVED :: fields[k]
  }

  function Merged(previous: Info, d: Discovery): Info
  {
    if Unsuccessful(d) then
      Info(if previous.gpus.Some? then previous.gpus else d.info.gpus,
           previous.fields + d.info.fields + Restricted(previous.fields))
    else
      Info(Some(Listed(d.info.gpus) + Removed(Listed(previous.gpus), Listed(d.info.gpus))),
           previous.fields + d.info.fields)
  }

  /** `merge_inventory`. */
  method MergeInventory(previous: Info, d: Discovery) returns (result: Info)
    ensures result == Merged(previous, d)
  {
    result := Info(if d.info.gpus.Some? then d.info.gpus else previous.gpus, previous.fields + d.info.fields);
    if Unsuccessful(d) {
      if previous.gpus.Some? {
        result := result.(gpus := previous.gpus);
      }
      var fields := Restore(result.fields, previous.fields, PRESERVED);
      result := result.(fields := fields);
    } else {
      var current := Listed(d.info.gpus);
      result := result.(gpus := Some(current + Removed(Listed(previous.gpus), current)));
    }
  }

  /** The loop that puts back what a failed discovery must not overwrite. */
  method Restore(fields: map<string, string>, previous: map<string, string>, names: seq<string>)
    returns (restored: map<string, string>)
    ensures restored == fields + map k | k in previous && k in names :: previous[k]
  {
    restored := fields;
    for n := 0 to |names|
      invariant restored == fields + map k | k in previous && k in names[..n] :: previous[k]
    {
      if names[n] in previous {
        restored := restored[names[n] := previous[names[n]]];
      }
      assert names[..n + 1] == names[..n] + [names[n]];
    }
    assert names[..|names|] == names;
  }

  // ---------------------------------------------------------------- identities over runs

  predicate DistinctUuids(gpus: seq<GpuRow>)
  {
    forall i, j :: 0 <= i < j < |gpus| && gpus[i].uuid.Some? ==> gpus[i].uuid != gpus[j].uuid
  }

  /** What discovery produces: distinct, non-empty identities, all present; a failed one lists nothing. */
  predicate DiscoveryOk(d: Discovery)
  {
    var gpus := Listed(d.info.gpus);
    && DistinctUuids(gpus)
    && (forall i :: 0 <= i < |gpus| ==> gpus[i].present && gpus[i].uuid != Some(""))
    && (Unsuccessful(d) ==> gpus == [])
  }

  predicate AllOk(ds: seq<Discovery>)
  {
    forall i :: 0 <= i < |ds| ==> DiscoveryOk(ds[i])
  }

  /** The inventory after a run of the discovery loop on a device that had none. */
  function Inventory(ds: seq<Discovery>): Info
  {
    if ds == [] then Info(None, map[]) else Merged(Inventory(ds[..|ds| - 1]), ds[|ds| - 1])
  }

  /** Some successful discovery listed the identity. */
  predicate EverListed(ds: seq<Discovery>, uuid: string)
  {
    exists i :: 0 <= i < |ds| && !Unsuccessful(ds[i]) && HasUuid(Listed(ds[i].info.gpus), uuid)
  }

  /** The latest successful discovery listed the identity. */
  function LatestListed(ds: seq<Discovery>, uuid: string): bool
  {
    if ds == [] then false
    else if Unsuccessful(ds[|ds| - 1]) then LatestListed(ds[..|ds| - 1], uuid)
    else HasUuid(Listed(ds[|ds| - 1].info.gpus), uuid)
  }

  /** The removed rows: known identities, not listed now, each as it was but absent. */
  lemma {:induction false} RemovedMeaning(known: seq<GpuRow>, current: seq<GpuRow>)
    requires DistinctUuids(known)
    ensures var r := Removed(known, current);
            && DistinctUuids(r)
            && (forall i :: 0 <= i < |r| ==> !r[i].present && r[i].uuid.Some? && r[i].uuid != Some("")
                                             && HasUuid(known, r[i].uuid.value) && !HasUuid(current, r[i].uuid.value))
            && (forall u :: u != "" && HasUuid(known, u) && !HasUuid(current, u) ==> HasUuid(r, u))
  {
    if known != [] {
      var front, gpu := known[..|known| - 1], known[|known| - 1];
      RemovedMeaning(front, current);
      var before, r := Removed(front, current), Removed(known, current);
      forall i | 0 <= i < |before|
        ensures before[i].uuid != gpu.uuid && HasUuid(known, before[i].uuid.value)
      {
        var k :| 0 <= k < |front| && front[k].uuid == Some(before[i].uuid.value);
        assert known[k].uuid == before[i].uuid;
      }
      forall u | u != "" && HasUuid(known, u) && !HasUuid(current, u)
        ensures HasUuid(r, u)
      {
        var k :| 0 <= k < |known| && known[k].uuid == Some(u);
        if k < |front| {
          assert front[k].uuid == Some(u);
          var i :| 0 <= i < |before| && before[i].uuid == Some(u);
          assert r[i].uuid == Some(u);
        } else {
          assert r[|before|].uuid == Some(u);
        }
      }
    }
  }

  /** The rows with identities are right: one for each identity ever listed, present exactly if listed last. */
  ghost predicate InventoryOk(ds: seq<Discovery>, gpus: seq<GpuRow>)
  {
    && DistinctUuids(gpus)
    && (forall u :: HasUuid(gpus, u) <==> EverListed(ds, u))
    && (forall i :: 0 <= i < |gpus| && gpus[i].uuid.Some? ==> (gpus[i].present <==> LatestListed(ds, gpus[i].uuid.value)))
  }

  lemma {:induction false} ListedStep(front: seq<Discovery>, d: Discovery, uuid: string)
    ensures EverListed(front + [d], uuid)
            <==> EverListed(front, uuid) || (!Unsuccessful(d) && HasUuid(Listed(d.info.gpus), uuid))
    ensures LatestListed(front + [d], uuid)
            <==> if Unsuccessful(d) then LatestListed(front, uuid) else HasUuid(Listed(d.info.gpus), uuid)
  {
    var ds := front + [d];
    assert ds[..|front|] == front;
    if EverListed(front, uuid) {
      var i :| 0 <= i < |front| && !Unsuccessful(front[i]) && HasUuid(Listed(front[i].info.gpus), uuid);
      assert ds[i] == front[i];
    }
    if !Unsuccessful(d) && HasUuid(Listed(d.info.gpus), uuid) {
      assert ds[|front|] == d;
    }
  }

  lemma {:induction false} NoEmptyUuid(ds: seq<Discovery>)
    requires AllOk(ds)
    ensures !EverListed(ds, "")
  {
  }

  /** Rows with distinct identities stay distinct beside rows whose identities they do not share. */
  lemma {:induction false} DistinctConcat(a: seq<GpuRow>, b: seq<GpuRow>)
    requires DistinctUuids(a) && DistinctUuids(b)
    requires forall j :: 0 <= j < |b| && b[j].uuid.Some? ==> !HasUuid(a, b[j].uuid.value)
    ensures DistinctUuids(a + b)
  {
    forall i, j | 0 <= i < |a| && 0 <= j < |b| && a[i].uuid.Some?
      ensures a[i].uuid != b[j].uuid
    {
      assert HasUuid(a, a[i].uuid.value);
    }
  }

  lemma {:induction false} SuccessKeepsInventory(front: seq<Discovery>, d: Discovery, known: seq<GpuRow>)
    requires InventoryOk(front, known) && AllOk(front) && DiscoveryOk(d) && !Unsuccessful(d)
    ensures InventoryOk(front + [d], Listed(d.info.gpus) + Removed(known, Listed(d.info.gpus)))
  {
    var current, removed := Listed(d.info.gpus), Removed(known, Listed(d.info.gpus));
    var gpus := current + removed;
    RemovedMeaning(known, current);
    NoEmptyUuid(front);
    DistinctConcat(current, removed);
    forall u
      ensures HasUuid(gpus, u) <==> EverListed(front + [d], u)
      ensures HasUuid(gpus, u) <==> HasUuid(current, u) || HasUuid(removed, u)
    {
      ListedStep(front, d, u);
      UuidOfConcat(current, removed, u);
      if HasUuid(removed, u) {
        var j :| 0 <= j < |removed| && removed[j].uuid == Some(u);
        assert HasUuid(known, u);
      }
    }
    forall i | 0 <= i < |gpus| && gpus[i].uuid.Some?
      ensures gpus[i].present <==> LatestListed(front + [d], gpus[i].uuid.value)
    {
      ListedStep(front, d, gpus[i].uuid.value);
      if i < |current| {
        assert current[i].uuid == Some(gpus[i].uuid.value);
      } else {
        assert gpus[i] == removed[i - |current|];
      }
    }
  }

  lemma {:induction false} UuidOfConcat(a: seq<GpuRow>, b: seq<GpuRow>, uuid: string)
    ensures HasUuid(a + b, uuid) <==> HasUuid(a, uuid) || HasUuid(b, uuid)
  {
    if HasUuid(a, uuid) {
      var i :| 0 <= i < |a| && a[i].uuid == Some(uuid);
      assert (a + b)[i].uuid == Some(uuid);
    }
    if HasUuid(b, uuid) {
      var i :| 0 <= i < |b| && b[i].uuid == Some(uuid);
      assert (a + b)[|a| + i].uuid == Some(uuid);
    }
  }

  /** GPU identities survive any run of discoveries: each identity that a successful discovery ever listed has exactly one
      row, and is marked present exactly when the latest successful discovery listed it. */
  lemma {:induction false} IdentitiesSurvive(ds: seq<Discovery>)
    requires AllOk(ds)
    ensures InventoryOk(ds, Listed(Inventory(ds).gpus))
  {
    if ds != [] {
      var front, d := ds[..|ds| - 1], ds[|ds| - 1];
      assert ds == front + [d];
      IdentitiesSurvive(front);
      var known := Listed(Inventory(front).gpus);
      if Unsuccessful(d) {
        FailureKeepsInventory(front, d, known);
      } else {
        SuccessKeepsInventory(front, d, known);
      }
    }
  }

  lemma {:induction false} FailureKeepsInventory(front: seq<Discovery>, d: Discovery, known: seq<GpuRow>)
    requires InventoryOk(front, known) && Unsuccessful(d)
    ensures InventoryOk(front + [d], known)
  {
    forall u
      ensures EverListed(front + [d], u) <==> EverListed(front, u)
      ensures LatestListed(front + [d], u) <==> LatestListed(front, u)
    {
      ListedStep(front, d, u);
    }
  }

  lemma {:induction false} RemovedOfConcat(a: seq<GpuRow>, b: seq<GpuRow>, current: seq<GpuRow>)
    ensures Removed(a + b, current) == Removed(a, current) + Removed(b, current)
  {
    if b == [] {
      assert a + b == a;
    } else {
      assert (a + b)[..|a + b| - 1] == a + b[..|b| - 1];
      RemovedOfConcat(a, b[..|b| - 1], current);
    }
  }

  lemma {:induction false} ListedNotRemoved(some: seq<GpuRow>, current: seq<GpuRow>)
    requires forall i :: 0 <= i < |some| ==> some[i] in current
    ensures Removed(some, current) == []
  {
    if some != [] {
      ListedNotRemoved(some[..|some| - 1], current);
      var gpu := some[|some| - 1];
      var k :| 0 <= k < |current| && current[k] == gpu;
      assert gpu.uuid.Some? ==> current[k].uuid == Some(gpu.uuid.value);
    }
  }

  lemma {:induction false} RemovedAgain(known: seq<GpuRow>, current: seq<GpuRow>)
    ensures Removed(Removed(known, current), current) == Removed(known, current)
  {
    if known != [] {
      var front, gpu := known[..|known| - 1], known[|known| - 1];
      RemovedAgain(front, current);
      var last := if gpu.uuid.Some? && gpu.uuid.value != "" && !HasUuid(current, gpu.uuid.value)
                  then [gpu.(present := false)] else [];
      RemovedOfConcat(Removed(front, current), last, current);
      if last != [] {
        assert last[..0] == [];
        assert Removed(last, current) == last;
      }
    }
  }

  /** Merging the same discovery twice is merging it once; merging a failed one leaves known GPUs, and every preserved entry
      held before, as they were. */
  lemma {:induction false} MergeIdempotent(previous: Info, d: Discovery)
    ensures Merged(Merged(previous, d), d) == Merged(previous, d)
    ensures Unsuccessful(d) && previous.gpus.Some? ==> Merged(previous, d).gpus == previous.gpus
    ensures Unsuccessful(d) ==> forall k :: k in PRESERVED && k in previous.fields ==>
              Lookup(Merged(previous, d).fields, k) == Some(previous.fields[k])
  {
    var once := Merged(previous, d);
    if Unsuccessful(d) {
      FieldsTwice(previous.fields, d.info.fields);
    } else {
      var current, known := Listed(d.info.gpus), Listed(previous.gpus);
      RemovedOfConcat(current, Removed(known, current), current);
      ListedNotRemoved(current, current);
      RemovedAgain(known, current);
      assert [] + Removed(known, current) == Removed(known, current);
      assert once.fields + d.info.fields == once.fields;
    }
  }

  /** A known row with an identity that is not listed now, marked absent. */
  predicate Gone(known: seq<GpuRow>, current: seq<GpuRow>, gpu: GpuRow)
  {
    && gpu.uuid != None && gpu.uuid != Some("") && !gpu.present
    && (gpu in known || gpu.(present := true) in known)
    && forall c :: c in current ==> c.uuid != gpu.uuid
  }

  lemma {:induction false} RemovedIff(known: seq<GpuRow>, current: seq<GpuRow>)
    ensures forall gpu :: gpu in Removed(known, current) <==> Gone(known, current, gpu)
  {
    if known != [] {
      var front, last := known[..|known| - 1], known[|known| - 1];
      RemovedIff(front, current);
      assert forall gpu :: gpu in known <==> gpu in front || gpu == last;
      assert last.uuid.Some? ==> (HasUuid(current, last.uuid.value) <==> exists c :: c in current && c.uuid == last.uuid) by {
        if last.uuid.Some? && exists c :: c in current && c.uuid == last.uuid {
          var c :| c in current && c.uuid == last.uuid;
          var i :| 0 <= i < |current| && current[i] == c;
        }
      }
    }
  }

  /** What a merge comes to. A discovery that found GPUs unavailable, or unsupported without having verified it, keeps the
      known list and the preserved entries; any other lists its own rows first, then each known identity it did not list,
      as it was but absent; entries it brings replace those of the same name. */
  lemma {:induction false} MergeMeans(previous: Info, d: Discovery)
    ensures var merged := Merged(previous, d);
            var failed := d.status == Some("unavailable") || (d.status == Some("unsupported") && !d.verified);
            && (forall k :: Lookup(merged.fields, k)
                  == if failed && k in ["gpu", "gpu_names", "gpu_count", "capabilities"] && k in previous.fields
                     then Some(previous.fields[k])
                     else if k in d.info.fields then Some(d.info.fields[k]) else Lookup(previous.fields, k))
            && (failed ==> merged.gpus == if previous.gpus == None then d.info.gpus else previous.gpus)
            && (!failed ==>
                  var current := if d.info.gpus == None then [] else d.info.gpus.value;
                  var known := if previous.gpus == None then [] else previous.gpus.value;
                  && merged.gpus != None && current <= merged.gpus.value
                  && (forall gpu :: gpu in merged.gpus.value[|current|..] <==> Gone(known, current, gpu)))
  {
    if !Unsuccessful(d) {
      var current, known := Listed(d.info.gpus), Listed(previous.gpus);
      assert (current + Removed(known, current))[|current|..] == Removed(known, current);
      RemovedIff(known, current);
    }
  }

  lemma {:induction false} FieldsTwice(previous: map<string, string>, new': map<string, string>)
    ensures var once := previous + new' + Restricted(previous);
            once + new' + Restricted(once) == once
  {
    var once := previous + new' + Restricted(previous);
    var twice := once + new' + Restricted(once);
    forall k
      ensures Lookup(twice, k) == Lookup(once, k)
    {
    }
    SameLookups(twice, once);
  }
}
