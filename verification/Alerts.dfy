/** The alert engine (sparkscope/alerts.py): transactions on counters, alerts and events, and what every run keeps. */
module Alerts {
  import opened Options
  import opened Debounce
  import Hardware

  /** A metric value as `evaluate` tests it: a finite `int` or `float` (booleans pass as 1 and 0), or anything else. */
  datatype Reading = Number(x: real) | NotNumber

  /** An entry of the effective rules; a rule without thresholds is disabled. */
  datatype Rule = Rule(metric: string, thresholds: Option<Hardware.Limits>, component: Option<string>)

  datatype Key = Key(device: string, metric: string)

  datatype Alert = Alert(
    key: Key, component: Option<string>, severity: Severity,
    firstSeen: real, lastSeen: real, occurrences: nat, resolvedAt: Option<real>)

  datatype Kind = Open | Escalate | Resolve

  datatype Event = Event(key: Key, component: Option<string>, kind: Kind, ts: real, alert: nat, severity: Severity)

  /** Counters live in memory, alerts (by id) are rows, and `events` is the log of all events ever emitted, of which the
      database keeps the recent ones. */
  datatype State = State(counters: map<Key, Counter>, alerts: map<nat, Alert>, nextAlert: nat, events: seq<Event>)

  const Initial := State(map[], map[], 0, [])

  // ---------------------------------------------------------------- one observation

  /** How a rule sees a reading. */
  function Judge(rule: Rule, reading: Option<Reading>): Obs
  {
    if rule.thresholds.None? || reading.None? || reading.value.NotNumber? then Break
    else
      var limits, value := rule.thresholds.value, reading.value.x;
      if value >= limits.warning then Bad(limits.critical.Some? && value >= limits.critical.value) else Good
  }

  predicate Unresolved(alerts: map<nat, Alert>, id: nat, key: Key)
  {
    id in alerts && alerts[id].key == key && alerts[id].resolvedAt.None?
  }

  ghost function ActiveIn(alerts: map<nat, Alert>, key: Key): Option<nat>
  {
    if exists id :: Unresolved(alerts, id, key) then
      var id :| Unresolved(alerts, id, key); Some(id)
    else None
  }

  /** The id of the pair's unresolved alert. */
  ghost function Active(st: State, key: Key): Option<nat>
  {
    ActiveIn(st.alerts, key)
  }

  function Counted(st: State, key: Key, c: Option<Counter>): State
  {
    st.(counters := if c.Some? then st.counters[key := c.value] else st.counters - {key})
  }

  function Opening(st: State, key: Key, component: Option<string>, level: Severity, ts: real): State
  {
    st.(alerts := st.alerts[st.nextAlert := Alert(key, component, level, ts, ts, 1, None)],
        nextAlert := st.nextAlert + 1,
        events := st.events + [Event(key, component, Open, ts, st.nextAlert, level)])
  }

  function Seeing(st: State, id: nat, component: Option<string>, level: Severity, ts: real): State
    requires id in st.alerts
  {
    var a := st.alerts[id].(lastSeen := ts, occurrences := st.alerts[id].occurrences + 1);
    if level == Critical && a.severity != Critical then
      st.(alerts := st.alerts[id := a.(severity := Critical)],
          events := st.events + [Event(a.key, component, Escalate, ts, id, Critical)])
    else
      st.(alerts := st.alerts[id := a])
  }

  function Resolving(st: State, id: nat, component: Option<string>, ts: real): State
    requires id in st.alerts
  {
    var a := st.alerts[id];
    st.(alerts := st.alerts[id := a.(resolvedAt := Some(ts))],
        events := st.events + [Event(a.key, component, Resolve, ts, id, a.severity)])
  }

  ghost function Reacted(st: State, key: Key, component: Option<string>, s: Signal, ts: real): State
  {
    match s
    case Quiet => st
    case Raise(level) =>
      (match Active(st, key)
       case Some(id) => Seeing(st, id, component, level, ts)
       case None => Opening(st, key, component, level, ts))
    case Clear =>
      match Active(st, key)
      case Some(id) => Resolving(st, id, component, ts)
      case None => st
  }

  ghost function Observed(st: State, key: Key, component: Option<string>, o: Obs, ts: real): State
  {
    var c := Count(Lookup(st.counters, key), o);
    Reacted(Counted(st, key, c), key, component, Verdict(c, o), ts)
  }

  // ---------------------------------------------------------------- transactions

  /** `effective_rules` returns a dictionary: one rule per metric. */
  predicate Distinct(rules: seq<Rule>)
  {
    forall i, j :: 0 <= i < j < |rules| ==> rules[i].metric != rules[j].metric
  }

  predicate Mentions(rules: seq<Rule>, metric: string)
  {
    exists i :: 0 <= i < |rules| && rules[i].metric == metric
  }

  /** Counters of metrics without a rule are dropped first. */
  function Pruned(st: State, device: string, rules: seq<Rule>): State
  {
    st.(counters := map k | k in st.counters && (k.device != device || Mentions(rules, k.metric)) :: st.counters[k])
  }

  /** The loop over rules, in whatever order the dictionary has. */
  ghost function Swept(st: State, device: string, rules: seq<Rule>, metrics: map<string, Reading>, ts: real): State
  {
    if rules == [] then st
    else
      var last := rules[|rules| - 1];
      Observed(Swept(st, device, rules[..|rules| - 1], metrics, ts), Key(device, last.metric), last.component,
               Judge(last, Lookup(metrics, last.metric)), ts)
  }

  ghost function Evaluated(st: State, device: string, rules: seq<Rule>, metrics: map<string, Reading>, ts: real): State
  {
    Swept(Pruned(st, device, rules), device, rules, metrics, ts)
  }

  function ResetDevice(st: State, device: string): State
  {
    st.(counters := map k | k in st.counters && k.device != device :: st.counters[k])
  }

  /** A restart, or new global thresholds: every counter is gone. */
  function Forgotten(st: State): State
  {
    st.(counters := map[])
  }

  /** Retention deletes long-resolved alerts. */
  function Purged(st: State, cutoff: real): State
  {
    st.(alerts := map id | id in st.alerts && !(st.alerts[id].resolvedAt.Some? && st.alerts[id].resolvedAt.value < cutoff)
          :: st.alerts[id])
  }

  datatype Action =
    | Evaluate(device: string, rules: seq<Rule>, metrics: map<string, Reading>, ts: real)
    | Reset(device: string)
    | Forget
    | Purge(cutoff: real)

  predicate Legal(a: Action)
  {
    a.Evaluate? ==> Distinct(a.rules)
  }

  ghost function Exec(st: State, a: Action): State
  {
    match a
    case Evaluate(device, rules, metrics, ts) => Evaluated(st, device, rules, metrics, ts)
    case Reset(device) => ResetDevice(st, device)
    case Forget => Forgotten(st)
    case Purge(cutoff) => Purged(st, cutoff)
  }

  ghost function After(actions: seq<Action>): State
  {
    if actions == [] then Initial else Exec(After(actions[..|actions| - 1]), actions[|actions| - 1])
  }

  // ---------------------------------------------------------------- invariant

  /** The kinds and severities of the events of one alert, in order. */
  function Trace(events: seq<Event>, id: nat): seq<(Kind, Severity)>
  {
    if events == [] then []
    else
      var last := events[|events| - 1];
      Trace(events[..|events| - 1], id) + if last.alert == id then [(last.kind, last.severity)] else []
  }

  /** Opened at its severity, or opened as a warning and escalated once. */
  predicate RaisedTrace(t: seq<(Kind, Severity)>, severity: Severity)
  {
    t == [(Open, severity)] || (severity == Critical && t == [(Open, Warning), (Escalate, Critical)])
  }

  predicate ClosedTrace(t: seq<(Kind, Severity)>, severity: Severity)
  {
    |t| >= 1 && t[|t| - 1] == (Resolve, severity) && RaisedTrace(t[..|t| - 1], severity)
  }

  ghost predicate AlertOk(st: State, id: nat)
    requires id in st.alerts
  {
    var a := st.alerts[id];
    && id < st.nextAlert
    && if a.resolvedAt.None? then RaisedTrace(Trace(st.events, id), a.severity)
       else ClosedTrace(Trace(st.events, id), a.severity)
  }

  ghost predicate OnePerKey(st: State)
  {
    forall i, j, key :: Unresolved(st.alerts, i, key) && Unresolved(st.alerts, j, key) ==> i == j
  }

  ghost predicate Inv(st: State)
  {
    && OnePerKey(st)
    && (forall id :: id in st.alerts ==> AlertOk(st, id))
    && (forall id: nat :: id >= st.nextAlert ==> Trace(st.events, id) == [])
  }

  /** The pair's own machine inside the engine. */
  ghost function View(st: State, key: Key): Machine
  {
    Machine(Lookup(st.counters, key),
            match Active(st, key)
            case Some(id) => Opened(st.alerts[id].severity)
            case None => Closed)
  }

  ghost predicate Undisturbed(before: State, after: State, key: Key)
  {
    View(after, key) == View(before, key) && Active(after, key) == Active(before, key)
  }

  // ---------------------------------------------------------------- one observation keeps everything

  lemma {:induction false} ActiveUnique(st: State, id: nat, key: Key)
    requires OnePerKey(st) && Unresolved(st.alerts, id, key)
    ensures Active(st, key) == Some(id)
  {
  }

  lemma {:induction false} TraceStep(events: seq<Event>, e: Event, id: nat)
    ensures Trace(events + [e], id) == Trace(events, id) + if e.alert == id then [(e.kind, e.severity)] else []
  {
    assert (events + [e])[..|events|] == events;
  }

  /** Writing one row for `id` leaves every other pair as it was. */
  ghost predicate OnlyTouches(before: State, after: State, id: nat, key: Key)
  {
    && (forall k :: k != id ==> (k in after.alerts <==> k in before.alerts))
    && (forall k :: k != id && k in after.alerts ==> after.alerts[k] == before.alerts[k])
    && (id in before.alerts ==> before.alerts[id].key == key)
    && (id in after.alerts && after.alerts[id].key == key)
  }

  lemma {:induction false} OthersUntouched(before: State, after: State, id: nat, key: Key, other: Key)
    requires OnlyTouches(before, after, id, key) && OnePerKey(before) && other != key
    ensures Active(after, other) == Active(before, other)
  {
    assert forall k :: Unresolved(after.alerts, k, other) <==> Unresolved(before.alerts, k, other);
    if exists k :: Unresolved(before.alerts, k, other) {
      var k :| Unresolved(before.alerts, k, other);
      assert Unresolved(after.alerts, k, other);
    }
  }

  lemma {:induction false} ReactedCorrect(st: State, key: Key, component: Option<string>, s: Signal, ts: real)
    requires Inv(st)
    ensures var st' := Reacted(st, key, component, s, ts);
            && Inv(st')
            && st'.counters == st.counters
            && View(st', key).incident == React(View(st, key).incident, s)
            && forall other :: other != key ==> Undisturbed(st, st', other)
  {
    match s
    case Quiet =>
    case Raise(level) =>
      match Active(st, key) {
        case Some(id) => SeeingCorrect(st, id, key, component, level, ts);
        case None => OpeningCorrect(st, key, component, level, ts);
      }
    case Clear =>
      match Active(st, key) {
        case Some(id) => ResolvingCorrect(st, id, key, component, ts);
        case None =>
      }
  }

  lemma {:induction false} OpeningKeepsInv(st: State, key: Key, component: Option<string>, level: Severity, ts: real)
    requires Inv(st) && Active(st, key).None?
    ensures Inv(Opening(st, key, component, level, ts))
  {
    var st' := Opening(st, key, component, level, ts);
    var id := st.nextAlert;
    forall k: nat
      ensures Trace(st'.events, k) == Trace(st.events, k) + if k == id then [(Open, level)] else []
    {
      TraceStep(st.events, Event(key, component, Open, ts, id, level), k);
    }
    forall k | k in st'.alerts
      ensures AlertOk(st', k)
    {
      assert k != id ==> AlertOk(st, k);
    }
    assert forall k, o :: k != id ==> (Unresolved(st'.alerts, k, o) <==> Unresolved(st.alerts, k, o));
  }

  lemma {:induction false} OpeningCorrect(st: State, key: Key, component: Option<string>, level: Severity, ts: real)
    requires Inv(st) && Active(st, key).None?
    ensures var st' := Opening(st, key, component, level, ts);
            && Inv(st')
            && View(st', key).incident == Opened(level)
            && forall other :: other != key ==> Undisturbed(st, st', other)
  {
    var st' := Opening(st, key, component, level, ts);
    var id := st.nextAlert;
    OpeningKeepsInv(st, key, component, level, ts);
    assert Unresolved(st'.alerts, id, key);
    ActiveUnique(st', id, key);
    assert id in st.alerts ==> AlertOk(st, id);
    forall other | other != key
      ensures Undisturbed(st, st', other)
    {
      OthersUntouched(st, st', id, key, other);
    }
  }

  lemma {:induction false} SeenTrace(st: State, id: nat, component: Option<string>, level: Severity, ts: real, k: nat)
    requires id in st.alerts
    ensures var st' := Seeing(st, id, component, level, ts);
            Trace(st'.events, k) == Trace(st.events, k)
              + if k == id && level == Critical && st.alerts[id].severity == Warning then [(Escalate, Critical)] else []
  {
    TraceStep(st.events, Event(st.alerts[id].key, component, Escalate, ts, id, Critical), k);
  }

  lemma {:induction false} SeenUnresolved(st: State, id: nat, component: Option<string>, level: Severity, ts: real,
                                          k: nat, key: Key)
    requires id in st.alerts
    ensures Unresolved(Seeing(st, id, component, level, ts).alerts, k, key) <==> Unresolved(st.alerts, k, key)
  {
  }

  lemma {:induction false} SeeingKeepsInv(st: State, id: nat, key: Key, component: Option<string>, level: Severity,
                                          ts: real)
    requires Inv(st) && Unresolved(st.alerts, id, key)
    ensures Inv(Seeing(st, id, component, level, ts))
  {
    var st' := Seeing(st, id, component, level, ts);
    assert AlertOk(st, id);
    forall k, o
      ensures Unresolved(st'.alerts, k, o) <==> Unresolved(st.alerts, k, o)
    {
      SeenUnresolved(st, id, component, level, ts, k, o);
    }
    forall k | k in st'.alerts
      ensures AlertOk(st', k)
    {
      assert AlertOk(st, k);
      SeenTrace(st, id, component, level, ts, k);
    }
    forall k: nat | k >= st'.nextAlert
      ensures Trace(st'.events, k) == []
    {
      SeenTrace(st, id, component, level, ts, k);
    }
  }

  lemma {:induction false} SeeingCorrect(st: State, id: nat, key: Key, component: Option<string>, level: Severity,
                                         ts: real)
    requires Inv(st) && Unresolved(st.alerts, id, key)
    ensures var st' := Seeing(st, id, component, level, ts);
            && Inv(st')
            && View(st', key).incident == React(View(st, key).incident, Raise(level))
            && forall other :: other != key ==> Undisturbed(st, st', other)
  {
    var st' := Seeing(st, id, component, level, ts);
    ActiveUnique(st, id, key);
    SeeingKeepsInv(st, id, key, component, level, ts);
    ActiveUnique(st', id, key);
    forall other | other != key
      ensures Undisturbed(st, st', other)
    {
      OthersUntouched(st, st', id, key, other);
    }
  }

  lemma {:induction false} ResolvingKeepsInv(st: State, id: nat, key: Key, component: Option<string>, ts: real)
    requires Inv(st) && Unresolved(st.alerts, id, key)
    ensures Inv(Resolving(st, id, component, ts))
  {
    var st' := Resolving(st, id, component, ts);
    var severity := st.alerts[id].severity;
    forall k: nat
      ensures Trace(st'.events, k) == Trace(st.events, k) + if k == id then [(Resolve, severity)] else []
    {
      TraceStep(st.events, Event(key, component, Resolve, ts, id, severity), k);
    }
    forall k | k in st'.alerts
      ensures AlertOk(st', k)
    {
      assert AlertOk(st, k);
    }
    assert AlertOk(st, id);
    assert forall k, o :: Unresolved(st'.alerts, k, o) ==> Unresolved(st.alerts, k, o);
  }

  lemma {:induction false} ResolvingCorrect(st: State, id: nat, key: Key, component: Option<string>, ts: real)
    requires Inv(st) && Unresolved(st.alerts, id, key)
    ensures var st' := Resolving(st, id, component, ts);
            && Inv(st')
            && View(st', key).incident == Closed
            && forall other :: other != key ==> Undisturbed(st, st', other)
  {
    var st' := Resolving(st, id, component, ts);
    ResolvingKeepsInv(st, id, key, component, ts);
    assert forall k :: Unresolved(st'.alerts, k, key) ==> Unresolved(st.alerts, k, key) && k != id;
    forall other | other != key
      ensures Undisturbed(st, st', other)
    {
      OthersUntouched(st, st', id, key, other);
    }
  }

  /** An observation moves the pair's machine one step and leaves every other pair alone. */
  lemma {:induction false} ObservedCorrect(st: State, key: Key, component: Option<string>, o: Obs, ts: real)
    requires Inv(st)
    ensures var st' := Observed(st, key, component, o, ts);
            && Inv(st')
            && View(st', key) == Step(View(st, key), o)
            && forall other :: other != key ==> Undisturbed(st, st', other)
  {
    var c := Count(Lookup(st.counters, key), o);
    var counted := Counted(st, key, c);
    assert forall k, other :: Unresolved(counted.alerts, k, other) <==> Unresolved(st.alerts, k, other);
    assert Inv(counted) by {
      forall id | id in counted.alerts
        ensures AlertOk(counted, id)
      {
        assert AlertOk(st, id);
      }
    }
    ReactedCorrect(counted, key, component, Verdict(c, o), ts);
    forall other | other != key
      ensures Undisturbed(st, Observed(st, key, component, o, ts), other)
    {
      assert Undisturbed(counted, Observed(st, key, component, o, ts), other);
    }
  }

  /** The observation is the third bad in a row, or a further one. */
  predicate Raises(counters: map<Key, Counter>, key: Key, o: Obs)
  {
    o.Bad? && key in counters && counters[key].bad >= 2
  }

  /** What an observation writes while no alert of the pair is open: the third bad in a row opens one, and nothing else
      leaves a trace. */
  lemma {:induction false} OpeningWrites(st: State, key: Key, component: Option<string>, o: Obs, ts: real)
    requires forall id :: !Unresolved(st.alerts, id, key)
    ensures var st' := Observed(st, key, component, o, ts);
            if Raises(st.counters, key, o) then
              && st.nextAlert in st'.alerts
              && var severity := st'.alerts[st.nextAlert].severity;
              && st'.alerts == st.alerts[st.nextAlert := Alert(key, component, severity, ts, ts, 1, None)]
              && st'.events == st.events + [Event(key, component, Open, ts, st.nextAlert, severity)]
            else st'.alerts == st.alerts && st'.events == st.events
  {
    CountedActive(st, key, Count(Lookup(st.counters, key), o));
  }

  /** What an observation writes while an alert is open: each further bad in a row counts one more occurrence and moves its
      last time, the third good in a row stamps it resolved, and nothing else leaves a trace. */
  lemma {:induction false} OpenAlertWrites(st: State, id: nat, key: Key, component: Option<string>, o: Obs, ts: real)
    requires OnePerKey(st) && Unresolved(st.alerts, id, key)
    ensures var (row, st') := (st.alerts[id], Observed(st, key, component, o, ts));
            if Raises(st.counters, key, o) then
              && id in st'.alerts
              && var severity := st'.alerts[id].severity;
              && st'.alerts
                 == st.alerts[id := row.(lastSeen := ts, occurrences := row.occurrences + 1, severity := severity)]
              && st'.events == st.events + if severity == row.severity then []
                                           else [Event(key, component, Escalate, ts, id, Critical)]
            else if o.Good? && key in st.counters && st.counters[key].good >= 2 then
              && st'.alerts == st.alerts[id := row.(resolvedAt := Some(ts))]
              && st'.events == st.events + [Event(key, component, Resolve, ts, id, row.severity)]
            else st'.alerts == st.alerts && st'.events == st.events
  {
    ActiveUnique(st, id, key);
    CountedActive(st, key, Count(Lookup(st.counters, key), o));
  }

  lemma {:induction false} CountedActive(st: State, key: Key, c: Option<Counter>)
    ensures Active(Counted(st, key, c), key) == Active(st, key)
    ensures Lookup(Counted(st, key, c).counters, key) == c
  {
  }

  // ---------------------------------------------------------------- whole transactions

  function RuleObs(rules: seq<Rule>, metric: string, metrics: map<string, Reading>): Obs
  {
    if rules == [] then Break
    else
      var last := rules[|rules| - 1];
      if last.metric == metric then Judge(last, Lookup(metrics, metric))
      else RuleObs(rules[..|rules| - 1], metric, metrics)
  }

  /** What an action tells a pair: at most one observation. */
  function Seen(a: Action, key: Key): seq<Obs>
  {
    match a
    case Evaluate(device, rules, metrics, _) =>
      if key.device == device then [RuleObs(rules, key.metric, metrics)] else []
    case Reset(device) => if key.device == device then [Break] else []
    case Forget => [Break]
    case Purge(_) => []
  }

  function Heard(actions: seq<Action>, key: Key): seq<Obs>
  {
    if actions == [] then []
    else Heard(actions[..|actions| - 1], key) + Seen(actions[|actions| - 1], key)
  }

  lemma {:induction false} MentionsFront(rules: seq<Rule>, metric: string)
    requires rules != []
    ensures Mentions(rules, metric) <==> rules[|rules| - 1].metric == metric || Mentions(rules[..|rules| - 1], metric)
  {
    if Mentions(rules, metric) && rules[|rules| - 1].metric != metric {
      var i :| 0 <= i < |rules| && rules[i].metric == metric;
      assert rules[..|rules| - 1][i].metric == metric;
    }
    if Mentions(rules[..|rules| - 1], metric) {
      var i :| 0 <= i < |rules| - 1 && rules[..|rules| - 1][i].metric == metric;
      assert rules[i].metric == metric;
    }
  }

  lemma {:induction false} SweptCorrect(st: State, device: string, rules: seq<Rule>, metrics: map<string, Reading>,
                                        ts: real, key: Key)
    requires Inv(st) && Distinct(rules)
    ensures var st' := Swept(st, device, rules, metrics, ts);
            && Inv(st')
            && View(st', key) == if key.device == device && Mentions(rules, key.metric)
                                 then Step(View(st, key), RuleObs(rules, key.metric, metrics)) else View(st, key)
  {
    if rules != [] {
      var front, last := rules[..|rules| - 1], rules[|rules| - 1];
      SweptCorrect(st, device, front, metrics, ts, key);
      var middle := Swept(st, device, front, metrics, ts);
      ObservedCorrect(middle, Key(device, last.metric), last.component, Judge(last, Lookup(metrics, last.metric)), ts);
      assert key != Key(device, last.metric) ==> Undisturbed(middle, Swept(st, device, rules, metrics, ts), key);
      MentionsFront(rules, key.metric);
    }
  }

  lemma {:induction false} Unmentioned(rules: seq<Rule>, metric: string, metrics: map<string, Reading>)
    requires !Mentions(rules, metric)
    ensures RuleObs(rules, metric, metrics) == Break
  {
    if rules != [] {
      MentionsFront(rules, metric);
      Unmentioned(rules[..|rules| - 1], metric, metrics);
    }
  }

  /** Dropping counters keeps alerts, hence incidents. */
  lemma {:induction false} CountersDropped(st: State, st': State, key: Key)
    requires Inv(st) && st'.alerts == st.alerts && st'.nextAlert == st.nextAlert && st'.events == st.events
    ensures Inv(st') && View(st', key).incident == View(st, key).incident
  {
    assert forall k, o :: Unresolved(st'.alerts, k, o) <==> Unresolved(st.alerts, k, o);
    forall id | id in st'.alerts
      ensures AlertOk(st', id)
    {
      assert AlertOk(st, id);
    }
  }

  /** Retention deletes exactly the alerts resolved before the cutoff, and drops a counter nowhere. */
  lemma {:induction false} PurgeDeletes(st: State, cutoff: real)
    ensures var st' := Purged(st, cutoff);
            && (forall id :: id in st'.alerts <==>
                  (id in st.alerts && (st.alerts[id].resolvedAt == None || st.alerts[id].resolvedAt.value >= cutoff)))
            && (forall id :: id in st'.alerts ==> st'.alerts[id] == st.alerts[id])
            && st'.counters == st.counters && st'.events == st.events && st'.nextAlert == st.nextAlert
  {
  }

  lemma {:induction false} PurgeCorrect(st: State, cutoff: real, key: Key)
    requires Inv(st)
    ensures Inv(Purged(st, cutoff)) && View(Purged(st, cutoff), key) == View(st, key)
  {
    var st' := Purged(st, cutoff);
    assert forall k, o :: Unresolved(st'.alerts, k, o) <==> Unresolved(st.alerts, k, o);
    forall id | id in st'.alerts
      ensures AlertOk(st', id)
    {
      assert AlertOk(st, id);
    }
    if exists id :: Unresolved(st.alerts, id, key) {
      var id :| Unresolved(st.alerts, id, key);
      ActiveUnique(st, id, key);
      ActiveUnique(st', id, key);
    }
  }

  function Follow(m: Machine, obs: seq<Obs>): Machine
  {
    if obs == [] then m else Step(Follow(m, obs[..|obs| - 1]), obs[|obs| - 1])
  }

  /** Every transaction keeps the invariant and moves every pair's machine by exactly what it hears. */
  lemma {:induction false} ExecCorrect(st: State, a: Action, key: Key)
    requires Inv(st) && Legal(a)
    ensures Inv(Exec(st, a)) && View(Exec(st, a), key) == Follow(View(st, key), Seen(a, key))
  {
    match a
    case Evaluate(device, rules, metrics, ts) =>
      var pruned := Pruned(st, device, rules);
      CountersDropped(st, pruned, key);
      SweptCorrect(pruned, device, rules, metrics, ts, key);
      if !Mentions(rules, key.metric) {
        Unmentioned(rules, key.metric, metrics);
      }
    case Reset(device) => CountersDropped(st, ResetDevice(st, device), key);
    case Forget => CountersDropped(st, Forgotten(st), key);
    case Purge(cutoff) => PurgeCorrect(st, cutoff, key);
  }

  ghost predicate AllLegal(actions: seq<Action>)
  {
    forall i :: 0 <= i < |actions| ==> Legal(actions[i])
  }

  lemma {:induction false} RunCorrect(actions: seq<Action>, key: Key)
    requires AllLegal(actions)
    ensures Inv(After(actions)) && View(After(actions), key) == Run(Heard(actions, key))
  {
    if actions != [] {
      var front, last := actions[..|actions| - 1], actions[|actions| - 1];
      RunCorrect(front, key);
      ExecCorrect(After(front), last, key);
      if Seen(last, key) != [] {
        var o := Seen(last, key)[0];
        assert Seen(last, key) == [o];
        assert Heard(actions, key)[..|Heard(front, key)|] == Heard(front, key);
      } else {
        assert Heard(actions, key) == Heard(front, key);
      }
    }
  }

  // ---------------------------------------------------------------- main results

  /** In every run over many devices and metrics, a pair has an unresolved alert exactly when some three bads in a row
      were not followed by three goods in a row; it is critical exactly when that is so of three criticals; and there is
      at most one. */
  lemma {:induction false} AlertsRefineDebounce(actions: seq<Action>, key: Key)
    requires AllLegal(actions)
    ensures var st := After(actions);
            && ((exists id :: Unresolved(st.alerts, id, key)) <==> ShouldBeOpen(Heard(actions, key)))
            && (forall id :: Unresolved(st.alerts, id, key) ==>
                  (st.alerts[id].severity == Critical <==> ShouldBeCritical(Heard(actions, key))))
            && (forall i, j :: Unresolved(st.alerts, i, key) && Unresolved(st.alerts, j, key) ==> i == j)
  {
    RunCorrect(actions, key);
    MachineMeetsSpec(Heard(actions, key));
    var st := After(actions);
    forall id: nat | Unresolved(st.alerts, id, key)
      ensures Active(st, key) == Some(id)
    {
      ActiveUnique(st, id, key);
    }
  }

  /** What one alert row may become: same incident, severity never drops, nothing changes after resolution. */
  predicate Evolves(a: Alert, b: Alert)
  {
    && b.key == a.key && b.component == a.component && b.firstSeen == a.firstSeen
    && (a.severity == Critical ==> b.severity == Critical)
    && a.occurrences <= b.occurrences
    && (a.resolvedAt.Some? ==> b == a)
  }

  /** Everything that a transaction about one device may do to rows and counters. */
  ghost predicate Confined(before: State, after: State, device: string)
  {
    && (forall id :: id in before.alerts ==> id in after.alerts && Evolves(before.alerts[id], after.alerts[id]))
    && (forall id :: id in before.alerts && before.alerts[id].key.device != device ==> after.alerts[id] == before.alerts[id])
    && (forall id :: id in after.alerts && id !in before.alerts ==>
          after.alerts[id].key.device == device && id >= before.nextAlert)
    && before.nextAlert <= after.nextAlert
    && (forall k: Key :: k.device != device ==> Lookup(after.counters, k) == Lookup(before.counters, k))
    && before.events <= after.events
    && (forall i :: |before.events| <= i < |after.events| ==> after.events[i].key.device == device)
  }

  lemma {:induction false} OpeningConfined(st: State, key: Key, component: Option<string>, level: Severity, ts: real)
    requires forall id :: id in st.alerts ==> id < st.nextAlert
    ensures Confined(st, Opening(st, key, component, level, ts), key.device)
  {
  }

  lemma {:induction false} SeeingConfined(st: State, id: nat, key: Key, component: Option<string>, level: Severity,
                                          ts: real)
    requires Unresolved(st.alerts, id, key)
    ensures Confined(st, Seeing(st, id, component, level, ts), key.device)
  {
  }

  lemma {:induction false} ResolvingConfined(st: State, id: nat, key: Key, component: Option<string>, ts: real)
    requires Unresolved(st.alerts, id, key)
    ensures Confined(st, Resolving(st, id, component, ts), key.device)
  {
  }

  lemma {:induction false} ReactedConfined(st: State, key: Key, component: Option<string>, s: Signal, ts: real)
    requires Inv(st)
    ensures Confined(st, Reacted(st, key, component, s, ts), key.device)
  {
    match s
    case Quiet =>
    case Raise(level) =>
      match Active(st, key) {
        case Some(id) => SeeingConfined(st, id, key, component, level, ts);
        case None =>
          assert forall id :: id in st.alerts ==> AlertOk(st, id);
          OpeningConfined(st, key, component, level, ts);
      }
    case Clear =>
      match Active(st, key) {
        case Some(id) => ResolvingConfined(st, id, key, component, ts);
        case None =>
      }
  }

  lemma {:induction false} ObservedConfined(st: State, key: Key, component: Option<string>, o: Obs, ts: real)
    requires Inv(st)
    ensures Confined(st, Observed(st, key, component, o, ts), key.device)
  {
    var c := Count(Lookup(st.counters, key), o);
    var counted := Counted(st, key, c);
    CountersDropped(st, counted, key);
    assert Confined(st, counted, key.device);
    ReactedConfined(counted, key, component, Verdict(c, o), ts);
    ConfinedTransitive(st, counted, Observed(st, key, component, o, ts), key.device);
  }

  lemma {:induction false} ConfinedTransitive(a: State, b: State, c: State, device: string)
    requires Confined(a, b, device) && Confined(b, c, device)
    ensures Confined(a, c, device)
  {
  }

  lemma {:induction false} SweptConfined(st: State, device: string, rules: seq<Rule>, metrics: map<string, Reading>,
                                         ts: real)
    requires Inv(st) && Distinct(rules)
    ensures Confined(st, Swept(st, device, rules, metrics, ts), device)
  {
    if rules != [] {
      var front, last := rules[..|rules| - 1], rules[|rules| - 1];
      SweptConfined(st, device, front, metrics, ts);
      var middle := Swept(st, device, front, metrics, ts);
      SweptCorrect(st, device, front, metrics, ts, Key(device, last.metric));
      ObservedConfined(middle, Key(device, last.metric), last.component, Judge(last, Lookup(metrics, last.metric)), ts);
      ConfinedTransitive(st, middle, Swept(st, device, rules, metrics, ts), device);
    }
  }

  /** Evaluating one device touches nothing of another; no severity drops, and resolved alerts are final. */
  lemma {:induction false} EvaluationConfined(st: State, device: string, rules: seq<Rule>, metrics: map<string,
                                              Reading>, ts: real)
    requires Inv(st) && Distinct(rules)
    ensures Confined(st, Evaluated(st, device, rules, metrics, ts), device)
  {
    var pruned := Pruned(st, device, rules);
    CountersDropped(st, pruned, Key(device, ""));
    SweptConfined(pruned, device, rules, metrics, ts);
    assert Confined(st, pruned, device);
    ConfinedTransitive(st, pruned, Evaluated(st, device, rules, metrics, ts), device);
  }

  // ---------------------------------------------------------------- over runs

  /** No alert is lost, none that is gone comes back, and those that are gone get no further event. */
  ghost predicate LeavesGone(before: State, after: State)
  {
    && before.nextAlert <= after.nextAlert
    && (forall id :: id in before.alerts ==> id in after.alerts)
    && (forall id: nat :: id < after.nextAlert && id !in after.alerts ==>
          id < before.nextAlert && Trace(after.events, id) == Trace(before.events, id))
  }

  lemma {:induction false} AppendLeavesGone(before: State, after: State, e: Event)
    requires after.events == before.events + [e] && e.alert in after.alerts
    requires forall id :: id in before.alerts ==> id in after.alerts
    requires before.nextAlert <= after.nextAlert
             && forall id: nat :: before.nextAlert <= id < after.nextAlert ==> id in after.alerts
    ensures LeavesGone(before, after)
  {
    forall id: nat | id < after.nextAlert && id !in after.alerts
      ensures Trace(after.events, id) == Trace(before.events, id)
    {
      TraceStep(before.events, e, id);
    }
  }

  lemma {:induction false} OpeningLeavesGone(st: State, key: Key, component: Option<string>, level: Severity, ts: real)
    ensures LeavesGone(st, Opening(st, key, component, level, ts))
  {
    AppendLeavesGone(st, Opening(st, key, component, level, ts), Event(key, component, Open, ts, st.nextAlert, level));
  }

  lemma {:induction false} SeeingLeavesGone(st: State, id: nat, component: Option<string>, level: Severity, ts: real)
    requires id in st.alerts
    ensures LeavesGone(st, Seeing(st, id, component, level, ts))
  {
    var st' := Seeing(st, id, component, level, ts);
    if st'.events != st.events {
      AppendLeavesGone(st, st', Event(st.alerts[id].key, component, Escalate, ts, id, Critical));
    }
  }

  lemma {:induction false} ResolvingLeavesGone(st: State, id: nat, component: Option<string>, ts: real)
    requires id in st.alerts
    ensures LeavesGone(st, Resolving(st, id, component, ts))
  {
    var a := st.alerts[id];
    AppendLeavesGone(st, Resolving(st, id, component, ts), Event(a.key, component, Resolve, ts, id, a.severity));
  }

  lemma {:induction false} ReactedLeavesGone(st: State, key: Key, component: Option<string>, s: Signal, ts: real)
    requires Inv(st)
    ensures LeavesGone(st, Reacted(st, key, component, s, ts))
  {
    match s
    case Quiet =>
    case Raise(level) =>
      match Active(st, key) {
        case Some(id) => SeeingLeavesGone(st, id, component, level, ts);
        case None => OpeningLeavesGone(st, key, component, level, ts);
      }
    case Clear =>
      match Active(st, key) {
        case Some(id) => ResolvingLeavesGone(st, id, component, ts);
        case None =>
      }
  }

  lemma {:induction false} SweptLeavesGone(st: State, device: string, rules: seq<Rule>, metrics: map<string, Reading>,
                                           ts: real)
    requires Inv(st) && Distinct(rules)
    ensures LeavesGone(st, Swept(st, device, rules, metrics, ts))
  {
    if rules != [] {
      var front, last := rules[..|rules| - 1], rules[|rules| - 1];
      SweptLeavesGone(st, device, front, metrics, ts);
      var middle, key := Swept(st, device, front, metrics, ts), Key(device, last.metric);
      SweptCorrect(st, device, front, metrics, ts, key);
      var o := Judge(last, Lookup(metrics, last.metric));
      var c := Count(Lookup(middle.counters, key), o);
      CountersDropped(middle, Counted(middle, key, c), key);
      ReactedLeavesGone(Counted(middle, key, c), key, last.component, Verdict(c, o), ts);
    }
  }

  /** An alert that is gone was resolved: its log is complete. */
  ghost predicate GoneOk(st: State)
  {
    forall id: nat :: id < st.nextAlert && id !in st.alerts ==> exists s :: ClosedTrace(Trace(st.events, id), s)
  }

  lemma {:induction false} ExecKeepsGone(st: State, a: Action)
    requires Inv(st) && GoneOk(st) && Legal(a)
    ensures GoneOk(Exec(st, a))
  {
    match a
    case Evaluate(device, rules, metrics, ts) =>
      var pruned := Pruned(st, device, rules);
      CountersDropped(st, pruned, Key(device, ""));
      SweptLeavesGone(pruned, device, rules, metrics, ts);
    case Reset(device) =>
    case Forget =>
    case Purge(cutoff) =>
      forall id: nat | id < st.nextAlert && id !in Purged(st, cutoff).alerts
        ensures exists s :: ClosedTrace(Trace(st.events, id), s)
      {
        assert id in st.alerts ==> AlertOk(st, id);
      }
  }

  lemma {:induction false} RunKeepsInv(actions: seq<Action>)
    requires AllLegal(actions)
    ensures Inv(After(actions)) && GoneOk(After(actions))
  {
    if actions != [] {
      var front, last := actions[..|actions| - 1], actions[|actions| - 1];
      RunKeepsInv(front);
      ExecCorrect(After(front), last, Key("", ""));
      ExecKeepsGone(After(front), last);
    }
  }

  /** The event log of every alert there ever was. While its row is stored: opened; escalated at most once, and only if it
      opened as a warning; resolved at most once, last, and exactly when the row says resolved. Once its row is deleted: a
      complete log that ends with the resolution. */
  lemma {:induction false} EventLogShape(actions: seq<Action>, id: nat)
    requires AllLegal(actions)
    ensures var (st, t) := (After(actions), Trace(After(actions).events, id));
            if id >= st.nextAlert then t == []
            else if id !in st.alerts then exists s :: ClosedTrace(t, s)
            else if st.alerts[id].resolvedAt.None? then RaisedTrace(t, st.alerts[id].severity)
            else ClosedTrace(t, st.alerts[id].severity)
  {
    RunKeepsInv(actions);
    assert id in After(actions).alerts ==> AlertOk(After(actions), id);
  }

  lemma {:induction false} StepEvolves(st: State, a: Action, id: nat)
    requires Inv(st) && Legal(a) && id < st.nextAlert
    ensures var st' := Exec(st, a);
            && st.nextAlert <= st'.nextAlert
            && (id in st'.alerts ==> id in st.alerts && Evolves(st.alerts[id], st'.alerts[id]))
            && (id !in st'.alerts && id !in st.alerts ==> Trace(st'.events, id) == Trace(st.events, id))
  {
    match a
    case Evaluate(device, rules, metrics, ts) =>
      var pruned := Pruned(st, device, rules);
      CountersDropped(st, pruned, Key(device, ""));
      EvaluationConfined(st, device, rules, metrics, ts);
      SweptLeavesGone(pruned, device, rules, metrics, ts);
    case _ =>
  }

  /** Over the rest of any run: a row that is still stored at its end evolved from the one stored before, so its severity
      never dropped and nothing changed after resolution; and an alert that is gone stays gone and gets no further event. */
  lemma {:induction false} RowsEvolve(actions: seq<Action>, n: nat, id: nat)
    requires AllLegal(actions) && n <= |actions| && id < After(actions[..n]).nextAlert
    ensures var (before, after) := (After(actions[..n]), After(actions));
            && before.nextAlert <= after.nextAlert
            && (id in after.alerts ==> id in before.alerts && Evolves(before.alerts[id], after.alerts[id]))
            && (id !in before.alerts ==> Trace(after.events, id) == Trace(before.events, id))
  {
    if n == |actions| {
      assert actions[..n] == actions;
    } else {
      var front, last := actions[..|actions| - 1], actions[|actions| - 1];
      assert front[..n] == actions[..n];
      RowsEvolve(front, n, id);
      RunKeepsInv(front);
      StepEvolves(After(front), last, id);
    }
  }
}
