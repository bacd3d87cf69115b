/** `AlertEngine` of sparkscope/alerts.py, step by step, against the functions of Alerts. */
module AlertEngine {
  import opened Options
  import opened Debounce
  import opened Alerts
  import opened AlertRules
  import Hardware

  class AlertEngine {
    var counters: map<Key, Counter>
    var alerts: map<nat, Alert>
    var nextAlert: nat
    var events: seq<Event>

    ghost function Value(): State
      reads this
    {
      State(counters, alerts, nextAlert, events)
    }

    constructor ()
      ensures Value() == Initial
    {
      counters, alerts, nextAlert, events := map[], map[], 0, [];
    }

    /** `reset`. */
    method Reset(device: string)
      modifies this`counters
      ensures Value() == ResetDevice(old(Value()), device)
    {
      counters := map k | k in counters && k.device != device :: counters[k];
    }

    /** The dictionary of the device's unresolved alerts by metric. */
    method ActiveAlerts(device: string) returns (active: map<string, nat>)
      requires Inv(Value())
      ensures forall m :: Lookup(active, m) == Active(Value(), Key(device, m))
    {
      active := map[];
      var todo := alerts.Keys;
      while todo != {}
        invariant todo <= alerts.Keys
        invariant forall m :: m in active ==> Unresolved(alerts, active[m], Key(device, m))
        invariant forall id :: id in alerts && id !in todo && alerts[id].key.device == device && alerts[id].resolvedAt.None?
                               ==> alerts[id].key.metric in active
        decreases todo
      {
        var id :| id in todo;
        todo := todo - {id};
        if alerts[id].key.device == device && alerts[id].resolvedAt.None? {
          active := active[alerts[id].key.metric := id];
        }
      }
      forall m
        ensures Lookup(active, m) == Active(Value(), Key(device, m))
      {
        if m in active {
          ActiveUnique(Value(), active[m], Key(device, m));
        }
      }
    }

    /** `evaluate`: the ghost result lists the effective rules, in the order the dictionary happens to have. */
    method Evaluate(device: string, metrics: map<string, Reading>, ts: real, global: Option<Hardware.Rules>,
                    overrides: Hardware.Overrides)
      returns (ghost effective: seq<Rule>)
      requires Inv(Value())
      modifies this
      ensures Effective(effective, device, metrics.Keys, global, overrides)
      ensures Value() == Evaluated(old(Value()), device, effective, metrics, ts)
    {
      var selected := Hardware.EffectiveRules(device, metrics.Keys, global, overrides);
      var rules := RuleList(selected);
      forall m
        ensures Lookup(selected, m) == EffectiveRule(device, metrics.Keys, global, overrides, m)
      {
      }
      ListIsEffective(rules, selected, device, metrics.Keys, global, overrides);
      effective := rules;
      EvaluateRules(device, rules, metrics, ts);
    }

    /** The rest of `evaluate`, given the effective rules. */
    method EvaluateRules(device: string, rules: seq<Rule>, metrics: map<string, Reading>, ts: real)
      requires Inv(Value()) && Distinct(rules)
      modifies this
      ensures Value() == Evaluated(old(Value()), device, rules, metrics, ts)
    {
      var active := ActiveAlerts(device);
      counters := map k | k in counters && (k.device != device || Mentions(rules, k.metric)) :: counters[k];
      ghost var pruned := Value();
      CountersDropped(old(Value()), pruned, Key(device, ""));
      for n := 0 to |rules|
        invariant Value() == Swept(pruned, device, rules[..n], metrics, ts)
        invariant Inv(Value())
        invariant forall i :: n <= i < |rules| ==> Lookup(active, rules[i].metric) == Active(Value(), Key(device, rules[i].metric))
      {
        ghost var before := Value();
        var rule := rules[n];
        ghost var obs := Judge(rule, Lookup(metrics, rule.metric));
        ObservedCorrect(before, Key(device, rule.metric), rule.component, obs, ts);
        Apply(device, rule, Lookup(metrics, rule.metric), Lookup(active, rule.metric), ts);
        assert rules[..n + 1][..n] == rules[..n];
        forall i | n < i < |rules|
          ensures Active(Value(), Key(device, rules[i].metric)) == Active(before, Key(device, rules[i].metric))
        {
          assert Undisturbed(before, Value(), Key(device, rules[i].metric));
        }
      }
      assert rules[..|rules|] == rules;
    }

    /** The body of the loop over rules, with the alert that is active for the metric. */
    method Apply(device: string, rule: Rule, reading: Option<Reading>, active: Option<nat>, ts: real)
      requires active == Active(Value(), Key(device, rule.metric))
      modifies this
      ensures Value() == Observed(old(Value()), Key(device, rule.metric), rule.component, Judge(rule, reading), ts)
    {
      var key := Key(device, rule.metric);
      if rule.thresholds.None? {
        counters := counters - {key};
        return;
      }
      var warning, critical := rule.thresholds.value.warning, rule.thresholds.value.critical;
      if reading.None? || reading.value.NotNumber? {
        counters := counters - {key};
        return;
      }
      var value := reading.value.x;
      var state := if key in counters then counters[key] else Counter(0, 0, 0);
      var severity := if critical.Some? && value >= critical.value then Critical else Warning;
      if value >= warning {
        state := Counter(state.bad + 1, 0, if severity == Critical then state.critical + 1 else 0);
        counters := counters[key := state];
        if state.bad < 3 {
          return;
        }
        var level := if state.critical >= 3 then Critical else Warning;
        if active.Some? {
          var alert := alerts[active.value];
          alert := alert.(lastSeen := ts, occurrences := alert.occurrences + 1);
          if level == Critical && alert.severity != Critical {
            alert := alert.(severity := Critical);
            events := events + [Event(key, rule.component, Escalate, ts, active.value, level)];
          }
          alerts := alerts[active.value := alert];
        } else {
          alerts := alerts[nextAlert := Alert(key, rule.component, level, ts, ts, 1, None)];
          events := events + [Event(key, rule.component, Open, ts, nextAlert, level)];
          nextAlert := nextAlert + 1;
        }
      } else {
        state := Counter(0, state.good + 1, 0);
        counters := counters[key := state];
        if state.good >= 3 && active.Some? {
          var alert := alerts[active.value];
          events := events + [Event(key, rule.component, Resolve, ts, active.value, alert.severity)];
          alerts := alerts[active.value := alert.(resolvedAt := Some(ts))];
        }
      }
    }
  }
}
