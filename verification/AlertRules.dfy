/** From configured rules to alerts: `evaluate` of sparkscope/alerts.py on top of `effective_rules` of
    sparkscope/hardware.py. */
module AlertRules {
  import opened Options
  import opened Debounce
  import opened Alerts
  import Hardware

  /** The rule `effective_rules` returns for a metric, if any. */
  ghost function EffectiveRule(device: string, metrics: set<string>, global: Option<Hardware.Rules>,
                               overrides: Hardware.Overrides, metric: string): Option<Hardware.Selected>
  {
    var base := if global.Some? then global.value else Hardware.DEFAULT_THRESHOLDS;
    if Hardware.Considered(metrics, base, metric) then Hardware.MostSpecific(device, global, overrides, metric) else None
  }

  function AsRule(metric: string, selected: Hardware.Selected): Rule
  {
    Rule(metric, selected.limits, selected.component)
  }

  /** The list holds exactly the effective rules, in any order. */
  ghost predicate Effective(rules: seq<Rule>, device: string, metrics: set<string>, global: Option<Hardware.Rules>,
                            overrides: Hardware.Overrides)
  {
    && Distinct(rules)
    && (forall m :: Mentions(rules, m) <==> EffectiveRule(device, metrics, global, overrides, m).Some?)
    && forall i :: 0 <= i < |rules| ==>
         var selected := EffectiveRule(device, metrics, global, overrides, rules[i].metric);
         selected.Some? ==> rules[i] == AsRule(rules[i].metric, selected.value)
  }

  /** The list holds exactly the entries of the dictionary. */
  predicate Lists(rules: seq<Rule>, selected: map<string, Hardware.Selected>)
  {
    && Distinct(rules)
    && forall i :: 0 <= i < |rules| ==>
         rules[i].metric in selected && rules[i] == AsRule(rules[i].metric, selected[rules[i].metric])
  }

  /** The items of the dictionary of effective rules, in some order. */
  method RuleList(selected: map<string, Hardware.Selected>) returns (rules: seq<Rule>)
    ensures Lists(rules, selected) && forall m :: Mentions(rules, m) <==> m in selected
  {
    rules := [];
    var todo := selected.Keys;
    while todo != {}
      invariant todo <= selected.Keys
      invariant Lists(rules, selected) && forall m :: Mentions(rules, m) <==> m in selected && m !in todo
      decreases todo
    {
      var metric :| metric in todo;
      RuleAppended(rules, AsRule(metric, selected[metric]));
      rules, todo := rules + [AsRule(metric, selected[metric])], todo - {metric};
    }
  }

  lemma {:induction false} ListIsEffective(rules: seq<Rule>, selected: map<string, Hardware.Selected>, device: string,
                                           metrics: set<string>, global: Option<Hardware.Rules>,
                                           overrides: Hardware.Overrides)
    requires Lists(rules, selected) && forall m :: Mentions(rules, m) <==> m in selected
    requires forall m :: Lookup(selected, m) == EffectiveRule(device, metrics, global, overrides, m)
    ensures Effective(rules, device, metrics, global, overrides)
  {
    forall m
      ensures m in selected <==> EffectiveRule(device, metrics, global, overrides, m).Some?
    {
      assert Lookup(selected, m) == EffectiveRule(device, metrics, global, overrides, m);
    }
    forall i | 0 <= i < |rules|
      ensures EffectiveRule(device, metrics, global, overrides, rules[i].metric) == Some(selected[rules[i].metric])
    {
      assert Lookup(selected, rules[i].metric) == Some(selected[rules[i].metric]);
    }
  }

  lemma {:induction false} RuleAppended(rules: seq<Rule>, rule: Rule)
    requires Distinct(rules) && !Mentions(rules, rule.metric)
    ensures Distinct(rules + [rule])
    ensures forall m :: Mentions(rules + [rule], m) <==> Mentions(rules, m) || m == rule.metric
  {
    var longer := rules + [rule];
    forall m
      ensures Mentions(longer, m) <==> Mentions(rules, m) || m == rule.metric
    {
      assert longer[..|longer| - 1] == rules;
      MentionsFront(longer, m);
    }
  }

  // ---------------------------------------------------------------- what a poll says about a pair

  /** What a poll tells a metric: how its most specific rule sees its reading, a break if there is no rule. */
  ghost function EffectiveObs(device: string, metrics: map<string, Reading>, global: Option<Hardware.Rules>,
                              overrides: Hardware.Overrides, metric: string): Obs
  {
    match EffectiveRule(device, metrics.Keys, global, overrides, metric)
    case None => Break
    case Some(selected) => Judge(AsRule(metric, selected), Lookup(metrics, metric))
  }

  /** What that comes to on the reading and the limits: bad from the warning level up, critical from the critical level up if
      there is one, good below the warning level, and a break without a rule, without limits or without a number. */
  lemma {:induction false} ReadingDecides(device: string, metrics: map<string, Reading>, global: Option<Hardware.Rules>,
                                          overrides: Hardware.Overrides, metric: string)
    ensures var rule := EffectiveRule(device, metrics.Keys, global, overrides, metric);
            var o := EffectiveObs(device, metrics, global, overrides, metric);
            && (o.Break? <==> rule.None? || rule.value.limits.None? || metric !in metrics || metrics[metric].NotNumber?)
            && (!o.Break? ==>
                  && var (limits, x) := (rule.value.limits.value, metrics[metric].x);
                  && (o.Good? <==> x < limits.warning)
                  && (o.Bad? <==> x >= limits.warning)
                  && (o == Bad(true) <==>
                        x >= limits.warning && limits.critical != None && x >= limits.critical.value))
  {
  }

  lemma {:induction false} RuleObsAt(rules: seq<Rule>, i: nat, metrics: map<string, Reading>)
    requires Distinct(rules) && i < |rules|
    ensures RuleObs(rules, rules[i].metric, metrics) == Judge(rules[i], Lookup(metrics, rules[i].metric))
  {
    if i < |rules| - 1 {
      RuleObsAt(rules[..|rules| - 1], i, metrics);
    }
  }

  lemma {:induction false} EffectiveSeen(rules: seq<Rule>, device: string, metrics: map<string, Reading>,
                                         global: Option<Hardware.Rules>, overrides: Hardware.Overrides, metric: string)
    requires Effective(rules, device, metrics.Keys, global, overrides)
    ensures RuleObs(rules, metric, metrics) == EffectiveObs(device, metrics, global, overrides, metric)
  {
    if Mentions(rules, metric) {
      var i :| 0 <= i < |rules| && rules[i].metric == metric;
      RuleObsAt(rules, i, metrics);
    } else {
      Unmentioned(rules, metric, metrics);
    }
  }

  // ---------------------------------------------------------------- runs of polls

  /** What reaches the engine: a poll with the thresholds and overrides stored at that time, or anything else. */
  datatype Input =
    | Poll(device: string, metrics: map<string, Reading>, ts: real, global: Option<Hardware.Rules>,
           overrides: Hardware.Overrides)
    | Other(action: Action)

  /** The action carries out the input, whatever order the rules came in. */
  ghost predicate Realizes(action: Action, input: Input)
  {
    match input
    case Poll(device, metrics, ts, global, overrides) =>
      && action.Evaluate? && action.device == device && action.metrics == metrics && action.ts == ts
      && Effective(action.rules, device, metrics.Keys, global, overrides)
    case Other(other) => !other.Evaluate? && action == other
  }

  ghost predicate RealizesAll(actions: seq<Action>, inputs: seq<Input>)
  {
    |actions| == |inputs| && forall i :: 0 <= i < |actions| ==> Realizes(actions[i], inputs[i])
  }

  /** The history of a pair, on the configured rules and the readings alone. */
  ghost function History(inputs: seq<Input>, key: Key): seq<Obs>
  {
    if inputs == [] then []
    else
      History(inputs[..|inputs| - 1], key)
      + match inputs[|inputs| - 1]
        case Poll(device, metrics, _, global, overrides) =>
          if key.device == device then [EffectiveObs(device, metrics, global, overrides, key.metric)] else []
        case Other(action) => Seen(action, key)
  }

  lemma {:induction false} HeardIsHistory(actions: seq<Action>, inputs: seq<Input>, key: Key)
    requires RealizesAll(actions, inputs)
    ensures AllLegal(actions) && Heard(actions, key) == History(inputs, key)
  {
    if actions != [] {
      var n := |actions| - 1;
      HeardIsHistory(actions[..n], inputs[..n], key);
      assert Realizes(actions[n], inputs[n]);
      forall i | 0 <= i < |actions|
        ensures Legal(actions[i])
      {
        assert Realizes(actions[i], inputs[i]);
      }
      if inputs[n].Poll? {
        EffectiveSeen(actions[n].rules, inputs[n].device, inputs[n].metrics, inputs[n].global, inputs[n].overrides,
                      key.metric);
      }
    }
  }

  /** In every run a pair has an unresolved alert, and a critical one, exactly as its readings demand under the most specific
      rule that named its canonical metric at each poll; an explicit null breaks a streak like a missing reading. */
  lemma {:induction false} AlertsFollowRules(actions: seq<Action>, inputs: seq<Input>, key: Key)
    requires RealizesAll(actions, inputs)
    ensures var st := After(actions);
            && ((exists id :: Unresolved(st.alerts, id, key)) <==> ShouldBeOpen(History(inputs, key)))
            && (forall id :: Unresolved(st.alerts, id, key) ==>
                  (st.alerts[id].severity == Critical <==> ShouldBeCritical(History(inputs, key))))
  {
    HeardIsHistory(actions, inputs, key);
    AlertsRefineDebounce(actions, key);
  }

  // ---------------------------------------------------------------- three readings in a row

  /** A poll of the pair's device with a number for its metric, and limits that apply to it. */
  ghost predicate Measured(input: Input, key: Key)
  {
    && input.Poll? && input.device == key.device
    && key.metric in input.metrics && input.metrics[key.metric].Number?
    && var rule := EffectiveRule(key.device, input.metrics.Keys, input.global, input.overrides, key.metric);
    && rule.Some? && rule.value.limits.Some?
  }

  ghost function LimitsOf(input: Input, key: Key): Hardware.Limits
    requires Measured(input, key)
  {
    EffectiveRule(key.device, input.metrics.Keys, input.global, input.overrides, key.metric).value.limits.value
  }

  ghost predicate AtWarning(input: Input, key: Key)
  {
    Measured(input, key) && input.metrics[key.metric].x >= LimitsOf(input, key).warning
  }

  ghost predicate AtCritical(input: Input, key: Key)
  {
    && AtWarning(input, key)
    && LimitsOf(input, key).critical.Some? && input.metrics[key.metric].x >= LimitsOf(input, key).critical.value
  }

  ghost predicate BelowWarning(input: Input, key: Key)
  {
    Measured(input, key) && input.metrics[key.metric].x < LimitsOf(input, key).warning
  }

  /** A poll or reset of another device, or retention. */
  predicate Unheard(input: Input, key: Key)
  {
    match input
    case Poll(device, _, _, _, _) => device != key.device
    case Other(action) => action.Purge? || (action.Reset? && action.device != key.device)
  }

  /** Polls `a`, `b` and `c` are the last three inputs that the pair hears. */
  predicate LastThree(inputs: seq<Input>, key: Key, a: nat, b: nat, c: nat)
  {
    && a < b < c < |inputs|
    && forall i :: a < i < |inputs| && i != b && i != c ==> Unheard(inputs[i], key)
  }

  lemma {:induction false} UnheardTail(inputs: seq<Input>, key: Key, n: nat)
    requires n <= |inputs| && forall i :: n <= i < |inputs| ==> Unheard(inputs[i], key)
    ensures History(inputs, key) == History(inputs[..n], key)
  {
    if n < |inputs| {
      var front := inputs[..|inputs| - 1];
      assert front[..n] == inputs[..n];
      UnheardTail(front, key, n);
      assert Unheard(inputs[|inputs| - 1], key);
    } else {
      assert inputs[..n] == inputs;
    }
  }

  ghost function Told(input: Input, key: Key): Obs
  {
    if BelowWarning(input, key) then Good else Bad(AtCritical(input, key))
  }

  lemma {:induction false} PollHeard(inputs: seq<Input>, key: Key, n: nat)
    requires n < |inputs| && Measured(inputs[n], key)
    requires forall i :: n < i < |inputs| ==> Unheard(inputs[i], key)
    ensures History(inputs, key) == History(inputs[..n], key) + [Told(inputs[n], key)]
  {
    UnheardTail(inputs, key, n + 1);
    assert inputs[..n + 1][..n] == inputs[..n];
    ReadingDecides(key.device, inputs[n].metrics, inputs[n].global, inputs[n].overrides, key.metric);
  }

  lemma {:induction false} LastThreeHeard(inputs: seq<Input>, key: Key, a: nat, b: nat, c: nat) returns (h: seq<Obs>)
    requires LastThree(inputs, key, a, b, c)
    requires Measured(inputs[a], key) && Measured(inputs[b], key) && Measured(inputs[c], key)
    ensures History(inputs, key) == h + [Told(inputs[a], key), Told(inputs[b], key), Told(inputs[c], key)]
  {
    h := History(inputs[..a], key);
    PollHeard(inputs, key, c);
    PrefixHeard(inputs, key, b, c);
    PrefixHeard(inputs, key, a, b);
  }

  lemma {:induction false} PrefixHeard(inputs: seq<Input>, key: Key, a: nat, b: nat)
    requires a < b <= |inputs| && Measured(inputs[a], key)
    requires forall i :: a < i < b ==> Unheard(inputs[i], key)
    ensures History(inputs[..b], key) == History(inputs[..a], key) + [Told(inputs[a], key)]
  {
    PollHeard(inputs[..b], key, a);
    assert inputs[..b][..a] == inputs[..a];
  }

  /** After three readings in a row at or above the warning level the pair has an unresolved alert, critical if all three
      were at or above the critical level; after three in a row below the warning level it has none. */
  lemma {:induction false} ThreeReadingsDecide(actions: seq<Action>, inputs: seq<Input>, key: Key, a: nat, b: nat, c: nat)
    requires RealizesAll(actions, inputs) && LastThree(inputs, key, a, b, c)
    ensures var alerts := After(actions).alerts;
            && (AtWarning(inputs[a], key) && AtWarning(inputs[b], key) && AtWarning(inputs[c], key) ==>
                  exists id :: Unresolved(alerts, id, key))
            && (AtCritical(inputs[a], key) && AtCritical(inputs[b], key) && AtCritical(inputs[c], key) ==>
                  exists id :: Unresolved(alerts, id, key) && alerts[id].severity == Critical)
            && (BelowWarning(inputs[a], key) && BelowWarning(inputs[b], key) && BelowWarning(inputs[c], key) ==>
                  !exists id :: Unresolved(alerts, id, key))
  {
    if Measured(inputs[a], key) && Measured(inputs[b], key) && Measured(inputs[c], key) {
      var h := LastThreeHeard(inputs, key, a, b, c);
      AlertsFollowRules(actions, inputs, key);
      TripleDecides(h, History(inputs, key));
    }
  }

  lemma {:induction false} TripleDecides(front: seq<Obs>, h: seq<Obs>)
    requires |h| == |front| + 3 && front == h[..|front|]
    ensures h[|h| - 3].Bad? && h[|h| - 2].Bad? && h[|h| - 1].Bad? ==> ShouldBeOpen(h)
    ensures h[|h| - 3] == h[|h| - 2] == h[|h| - 1] == Bad(true) ==> ShouldBeCritical(h)
    ensures h[|h| - 3].Good? && h[|h| - 2].Good? && h[|h| - 1].Good? ==> !ShouldBeOpen(h)
  {
    assert NoRecoveryAfter(h, |h|);
    if h[|h| - 3].Bad? && h[|h| - 2].Bad? && h[|h| - 1].Bad? {
      assert BadTriple(h, |h|);
    }
    if h[|h| - 3].Good? && h[|h| - 2].Good? && h[|h| - 1].Good? {
      assert GoodTriple(h, |h|);
    }
  }
}
