/** One alert rule watching one metric (sparkscope/alerts.py), as a machine and as a statement about its history. */
module Debounce {
  import opened Options

  /** What one evaluation tells a (device, metric) pair. A break is anything that drops its counter: no rule, a disabled
      rule, no usable value, a reset. */
  datatype Obs = Good | Bad(critical: bool) | Break

  datatype Counter = Counter(bad: nat, good: nat, critical: nat)

  datatype Severity = Warning | Critical

  datatype Signal = Quiet | Raise(level: Severity) | Clear

  /** The counter updates of `evaluate`. */
  function Count(c: Option<Counter>, o: Obs): Option<Counter>
  {
    var state := if c.Some? then c.value else Counter(0, 0, 0);
    match o
    case Break => None
    case Bad(critical) => Some(Counter(state.bad + 1, 0, if critical then state.critical + 1 else 0))
    case Good => Some(Counter(0, state.good + 1, 0))
  }

  /** What the updated counter calls for. */
  function Verdict(c: Option<Counter>, o: Obs): Signal
  {
    if c.None? then Quiet
    else if o.Bad? && c.value.bad >= 3 then Raise(if c.value.critical >= 3 then Critical else Warning)
    else if o.Good? && c.value.good >= 3 then Clear
    else Quiet
  }

  /** The unresolved alert of the pair, if any. */
  datatype Incident = Closed | Opened(severity: Severity)

  function React(i: Incident, s: Signal): Incident
  {
    match s
    case Quiet => i
    case Clear => Closed
    case Raise(level) => if i == Opened(Critical) || (i.Opened? && level == Warning) then i else Opened(level)
  }

  datatype Machine = Machine(counter: Option<Counter>, incident: Incident)

  const Fresh := Machine(None, Closed)

  function Step(m: Machine, o: Obs): Machine
  {
    var c := Count(m.counter, o);
    Machine(c, React(m.incident, Verdict(c, o)))
  }

  function Run(h: seq<Obs>): Machine
  {
    if h == [] then Fresh else Step(Run(h[..|h| - 1]), h[|h| - 1])
  }

  // ---------------------------------------------------------------- specification

  predicate BadTriple(h: seq<Obs>, j: int)
  {
    3 <= j <= |h| && h[j - 3].Bad? && h[j - 2].Bad? && h[j - 1].Bad?
  }

  predicate CriticalTriple(h: seq<Obs>, j: int)
  {
    BadTriple(h, j) && h[j - 3].critical && h[j - 2].critical && h[j - 1].critical
  }

  predicate GoodTriple(h: seq<Obs>, j: int)
  {
    3 <= j <= |h| && h[j - 3].Good? && h[j - 2].Good? && h[j - 1].Good?
  }

  /** No three goods in a row end after position `j`. */
  ghost predicate NoRecoveryAfter(h: seq<Obs>, j: int)
  {
    forall k :: j < k <= |h| ==> !GoodTriple(h, k)
  }

  /** Some three bads in a row are not followed by three goods in a row. */
  ghost predicate ShouldBeOpen(h: seq<Obs>)
  {
    exists j :: BadTriple(h, j) && NoRecoveryAfter(h, j)
  }

  /** Some three criticals in a row are not followed by three goods in a row. */
  ghost predicate ShouldBeCritical(h: seq<Obs>)
  {
    exists j :: CriticalTriple(h, j) && NoRecoveryAfter(h, j)
  }

  // ---------------------------------------------------------------- refinement

  /** How many of the last observations, at most three, satisfy the kind a counter counts. */
  lemma {:induction false} CountersMeanStreaks(h: seq<Obs>)
    ensures var c := Run(h).counter;
            && (c.None? <==> h == [] || h[|h| - 1].Break?)
            && (c.Some? ==>
                  && (c.value.bad >= 1 <==> |h| >= 1 && h[|h| - 1].Bad?)
                  && (c.value.bad >= 2 <==> |h| >= 2 && h[|h| - 1].Bad? && h[|h| - 2].Bad?)
                  && (c.value.bad >= 3 <==> BadTriple(h, |h|))
                  && (c.value.good >= 1 <==> |h| >= 1 && h[|h| - 1].Good?)
                  && (c.value.good >= 2 <==> |h| >= 2 && h[|h| - 1].Good? && h[|h| - 2].Good?)
                  && (c.value.good >= 3 <==> GoodTriple(h, |h|))
                  && (c.value.critical >= 1 <==> |h| >= 1 && h[|h| - 1] == Bad(true))
                  && (c.value.critical >= 2 <==> |h| >= 2 && h[|h| - 1] == Bad(true) && h[|h| - 2] == Bad(true))
                  && (c.value.critical >= 3 <==> CriticalTriple(h, |h|)))
  {
    if h != [] {
      CountersMeanStreaks(h[..|h| - 1]);
    }
  }

  lemma {:induction false} TriplesOfPrefix(h: seq<Obs>, o: Obs)
    ensures forall j :: j <= |h| ==> (BadTriple(h + [o], j) <==> BadTriple(h, j))
    ensures forall j :: j <= |h| ==> (CriticalTriple(h + [o], j) <==> CriticalTriple(h, j))
    ensures forall j :: j <= |h| ==> (GoodTriple(h + [o], j) <==> GoodTriple(h, j))
  {
  }

  lemma {:induction false} NoRecoveryStep(h: seq<Obs>, o: Obs, j: int)
    requires j <= |h|
    ensures NoRecoveryAfter(h + [o], j) <==> NoRecoveryAfter(h, j) && !GoodTriple(h + [o], |h| + 1)
  {
    TriplesOfPrefix(h, o);
    if NoRecoveryAfter(h + [o], j) {
      forall k | j < k <= |h|
        ensures !GoodTriple(h, k)
      {
        assert !GoodTriple(h + [o], k);
      }
    }
  }

  /** One more observation changes what should be open exactly as the last triple says. */
  lemma {:induction false} ShouldStep(h: seq<Obs>, o: Obs)
    ensures ShouldBeOpen(h + [o])
            <==> BadTriple(h + [o], |h| + 1) || (ShouldBeOpen(h) && !GoodTriple(h + [o], |h| + 1))
    ensures ShouldBeCritical(h + [o])
            <==> CriticalTriple(h + [o], |h| + 1) || (ShouldBeCritical(h) && !GoodTriple(h + [o], |h| + 1))
  {
    TriplesOfPrefix(h, o);
    forall j | j <= |h|
      ensures NoRecoveryAfter(h + [o], j) <==> NoRecoveryAfter(h, j) && !GoodTriple(h + [o], |h| + 1)
    {
      NoRecoveryStep(h, o, j);
    }
    assert NoRecoveryAfter(h + [o], |h| + 1);
  }

  /** The machine is open, and critical, exactly when its history says so. */
  lemma {:induction false} MachineMeetsSpec(h: seq<Obs>)
    ensures Run(h).incident.Opened? <==> ShouldBeOpen(h)
    ensures Run(h).incident == Opened(Critical) <==> ShouldBeCritical(h)
  {
    if h != [] {
      var front, last := h[..|h| - 1], h[|h| - 1];
      assert h == front + [last];
      MachineMeetsSpec(front);
      CountersMeanStreaks(h);
      ShouldStep(front, last);
    }
  }
}
