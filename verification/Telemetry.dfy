/** Ingest, rollup and retention of telemetry (sparkscope/history.py `summarize` and `maintain`). */
module Telemetry {
  import opened Options
  import opened Aggregates

  /** The two rollup resolutions, in seconds. */
  type Resolution = r: int | r == 60 || r == 900 witness 60

  datatype Sample = Sample(id: nat, device: string, source: string, ts: real, values: map<string, Value>)

  /** The columns of the unique constraint `uq_rollup_bucket`. */
  datatype RollupKey = RollupKey(device: string, source: string, resolution: Resolution, ts: int)

  /** The tables: samples in insertion order, rollups by unique key, `rollup_cursor_<resolution>` preferences. */
  datatype Store = Store(
    samples: seq<Sample>,
    nextId: nat,
    rollups: map<RollupKey, map<string, Value>>,
    cursors: map<Resolution, int>)

  datatype Policy = Policy(rawHours: int, minuteDays: int, quarterDays: int)

  const EmptyStore := Store([], 0, map[], map[])

  lemma {:induction false} Multiples(n: int)
    ensures n * 60 % 60 == 0 && n * 900 % 900 == 0
  {
  }

  /** `int(ts // resolution) * resolution`. */
  function Bucket(ts: real, res: Resolution): (b: int)
    ensures b as real <= ts < (b + res) as real
    ensures Aligned(b, res)
  {
    var n := if res == 60 then (ts / 60.0).Floor else (ts / 900.0).Floor;
    Multiples(n);
    n * res
  }

  predicate Aligned(t: int, res: Resolution)
  {
    if res == 60 then t % 60 == 0 else t % 900 == 0
  }

  /** An aligned instant never falls strictly inside a bucket: a timestamp and its bucket lie on the same side. */
  lemma {:induction false} AlignedSplits(c: int, ts: real, res: Resolution)
    requires Aligned(c, res)
    ensures ts >= c as real <==> Bucket(ts, res) >= c
    ensures ts < c as real <==> Bucket(ts, res) + res <= c
  {
  }

  function KeyOf(s: Sample, res: Resolution): RollupKey
  {
    RollupKey(s.device, s.source, res, Bucket(s.ts, res))
  }

  // ---------------------------------------------------------------- transactions

  function Ingested(db: Store, device: string, source: string, ts: real, values: map<string, Value>): Store
  {
    db.(samples := db.samples + [Sample(db.nextId, device, source, ts, values)], nextId := db.nextId + 1)
  }

  function Earliest(samples: seq<Sample>): (t: real)
    requires samples != []
    ensures forall s :: s in samples ==> t <= s.ts
    ensures exists s :: s in samples && s.ts == t
  {
    var last := samples[|samples| - 1];
    if |samples| == 1 then last.ts
    else
      var t := Earliest(samples[..|samples| - 1]);
      assert forall s :: s in samples <==> s in samples[..|samples| - 1] || s == last;
      Min(t, last.ts)
  }

  /** First second not yet consumed by the resolution. */
  function Start(db: Store, res: Resolution): int
    requires db.samples != []
  {
    Bucket(if res in db.cursors then db.cursors[res] as real else Earliest(db.samples), res)
  }

  /** Where the first pass of a resolution begins: at the start of the bucket of the earliest stored sample. */
  lemma {:induction false} FirstPassStart(db: Store, res: Resolution)
    requires db.samples != [] && res !in db.cursors
    ensures Aligned(Start(db, res), res)
    ensures forall s :: s in db.samples ==> Start(db, res) as real <= s.ts
    ensures exists s :: s in db.samples && s.ts < (Start(db, res) + res) as real
  {
    var first := Earliest(db.samples);
    var s :| s in db.samples && s.ts == first;
    assert s.ts < (Start(db, res) + res) as real;
  }

  /** Seconds one pass may consume. */
  function Chunk(res: Resolution): int
  {
    if res > 3600 then res else 3600
  }

  function Stop(db: Store, res: Resolution, now: real): int
    requires db.samples != []
  {
    var end := Bucket(now, res);
    var most := Start(db, res) + Chunk(res);
    if most < end then most else end
  }

  predicate Ready(db: Store, res: Resolution, now: real)
  {
    db.samples != [] && Start(db, res) < Stop(db, res, now)
  }

  predicate Increasing(rows: seq<Sample>)
  {
    forall i, j :: 0 <= i < j < |rows| ==> rows[i].id < rows[j].id
  }

  /** `where(Sample.ts >= lo, Sample.ts < hi)`. */
  function InRange(rows: seq<Sample>, lo: real, hi: real): (r: seq<Sample>)
    ensures forall s :: s in r <==> s in rows && lo <= s.ts < hi
  {
    if rows == [] then []
    else
      var last := rows[|rows| - 1];
      var front := InRange(rows[..|rows| - 1], lo, hi);
      assert forall s :: s in rows <==> s in rows[..|rows| - 1] || s == last;
      if lo <= last.ts < hi then front + [last] else front
  }

  /** What `delete(Sample).where(Sample.ts < cutoff)` leaves. */
  function Since(rows: seq<Sample>, cutoff: real): (r: seq<Sample>)
    ensures forall s :: s in r <==> s in rows && s.ts >= cutoff
  {
    if rows == [] then []
    else
      var last := rows[|rows| - 1];
      var front := Since(rows[..|rows| - 1], cutoff);
      assert forall s :: s in rows <==> s in rows[..|rows| - 1] || s == last;
      if last.ts >= cutoff then front + [last] else front
  }

  lemma {:induction false} RangeKeepsOrder(rows: seq<Sample>, lo: real, hi: real)
    requires Increasing(rows)
    ensures Increasing(InRange(rows, lo, hi))
  {
    if rows != [] {
      RangeKeepsOrder(rows[..|rows| - 1], lo, hi);
    }
  }

  lemma {:induction false} SinceKeepsOrder(rows: seq<Sample>, cutoff: real)
    requires Increasing(rows)
    ensures Increasing(Since(rows, cutoff))
  {
    if rows != [] {
      SinceKeepsOrder(rows[..|rows| - 1], cutoff);
    }
  }

  /** One dictionary of aggregates per bucket. */
  function Grouped(rows: seq<Sample>, res: Resolution): map<RollupKey, map<string, Agg>>
  {
    if rows == [] then map[]
    else
      var last := rows[|rows| - 1];
      var groups := Grouped(rows[..|rows| - 1], res);
      var k := KeyOf(last, res);
      groups[k := Accumulated(if k in groups then groups[k] else map[], last.values, false)]
  }

  function EncodeGroups(groups: map<RollupKey, map<string, Agg>>): map<RollupKey, map<string, Value>>
  {
    map k | k in groups :: EncodeAll(groups[k])
  }

  /** The rollup rows one pass writes. */
  function NewRows(db: Store, res: Resolution, now: real): (rows: map<RollupKey, map<string, Value>>)
    requires Ready(db, res, now)
    ensures rows.Keys == Grouped(InRange(db.samples, Start(db, res) as real, Stop(db, res, now) as real), res).Keys
  {
    EncodeGroups(Grouped(InRange(db.samples, Start(db, res) as real, Stop(db, res, now) as real), res))
  }

  /** Would an insert violate the unique constraint? Then the whole transaction rolls back. */
  predicate Conflicts(db: Store, res: Resolution, now: real)
  {
    Ready(db, res, now) && NewRows(db, res, now).Keys * db.rollups.Keys != {}
  }

  function Summarized(db: Store, res: Resolution, now: real): Store
  {
    if !Ready(db, res, now) || Conflicts(db, res, now) then db
    else db.(rollups := db.rollups + NewRows(db, res, now), cursors := db.cursors[res := Stop(db, res, now)])
  }

  function Safe(cursors: map<Resolution, int>): int
  {
    if 60 in cursors && 900 in cursors then
      if cursors[60] < cursors[900] then cursors[60] else cursors[900]
    else 0
  }

  function RawCutoff(db: Store, now: real, policy: Policy): real
  {
    Min(now - (policy.rawHours * 3600) as real, Safe(db.cursors) as real)
  }

  predicate Outdated(k: RollupKey, now: real, policy: Policy)
  {
    if k.resolution == 60 then k.ts as real < now - (policy.minuteDays * 86400) as real
    else k.ts as real < now - (policy.quarterDays * 86400) as real
  }

  /** The retention transaction of `maintain`, on the telemetry tables. */
  function Retained(db: Store, now: real, policy: Policy): Store
  {
    db.(samples := Since(db.samples, RawCutoff(db, now, policy)),
        rollups := map k | k in db.rollups && !Outdated(k, now, policy) :: db.rollups[k])
  }

  /** What retention leaves, on the tables and the policy. A sample stays exactly if it is young enough, or one of the two
      cursors has not passed it; without both cursors nothing since the epoch goes. A minute row and a quarter-hour row stay
      exactly as long as their own number of days. */
  lemma {:induction false} RetentionFollowsPolicy(db: Store, now: real, policy: Policy)
    ensures var after := Retained(db, now, policy);
            && (forall s :: s in after.samples <==>
                  (&& s in db.samples
                   && (s.ts >= now - (policy.rawHours * 3600) as real
                       || (60 in db.cursors && 900 in db.cursors
                           && (s.ts >= db.cursors[60] as real || s.ts >= db.cursors[900] as real))
                       || (!(60 in db.cursors && 900 in db.cursors) && s.ts >= 0.0))))
            && (Increasing(db.samples) ==> Increasing(after.samples))
            && (forall k: RollupKey :: k.resolution == 60 ==>
                  (k in after.rollups <==> k in db.rollups && k.ts as real >= now - (policy.minuteDays * 86400) as real))
            && (forall k: RollupKey :: k.resolution == 900 ==>
                  (k in after.rollups <==> k in db.rollups && k.ts as real >= now - (policy.quarterDays * 86400) as real))
            && (forall k :: k in after.rollups ==> after.rollups[k] == db.rollups[k])
            && after.cursors == db.cursors && after.nextId == db.nextId
  {
    if Increasing(db.samples) {
      SinceKeepsOrder(db.samples, RawCutoff(db, now, policy));
    }
  }

  // ---------------------------------------------------------------- runs

  datatype Step =
    | Ingest(device: string, source: string, ts: real, values: map<string, Value>)
    | Summarize(resolution: Resolution, now: real)
    | Retain(now: real, policy: Policy)

  /** A store with its past: every sample ever ingested, and every rollup row ever stored. */
  datatype World = World(db: Store, log: seq<Sample>, folded: map<RollupKey, map<string, Value>>)

  const Genesis := World(EmptyStore, [], map[])

  /** The environment's part: a sample is committed before any pass closes its bucket, and clocks start at zero. */
  predicate OnTime(db: Store, ts: real)
  {
    ts >= 0.0 && forall res :: res in db.cursors ==> ts >= db.cursors[res] as real
  }

  predicate Allowed(w: World, step: Step)
  {
    step.Ingest? ==> OnTime(w.db, step.ts)
  }

  function Apply(db: Store, step: Step): Store
  {
    match step
    case Ingest(device, source, ts, values) => Ingested(db, device, source, ts, values)
    case Summarize(res, now) => Summarized(db, res, now)
    case Retain(now, policy) => Retained(db, now, policy)
  }

  function Exec(w: World, step: Step): World
  {
    var db := Apply(w.db, step);
    World(db,
          if step.Ingest? then w.log + [Sample(w.db.nextId, step.device, step.source, step.ts, step.values)] else w.log,
          w.folded + db.rollups)
  }

  ghost predicate IsRun(steps: seq<Step>)
  {
    steps == [] || (IsRun(steps[..|steps| - 1]) && Allowed(After(steps[..|steps| - 1]), steps[|steps| - 1]))
  }

  function After(steps: seq<Step>): World
  {
    if steps == [] then Genesis else Exec(After(steps[..|steps| - 1]), steps[|steps| - 1])
  }

  // ---------------------------------------------------------------- invariant

  predicate Valid(s: Sample, metric: string)
  {
    Contribution(s.values, metric, false).Some?
  }

  /** The valid readings of `metric` among the log entries `ids` that fall in the bucket of `k`. */
  ghost function ReadingsAt(log: seq<Sample>, ids: set<nat>, k: RollupKey, metric: string): Readings
  {
    map i | i in ids && i < |log| && KeyOf(log[i], k.resolution) == k && Valid(log[i], metric)
      :: log[i].values[metric].x
  }

  /** Every valid reading of `metric` ever ingested in the bucket of `k`. */
  ghost function ReadingsOf(log: seq<Sample>, k: RollupKey, metric: string): Readings
  {
    map i: nat | i < |log| && KeyOf(log[i], k.resolution) == k && Valid(log[i], metric)
      :: log[i].values[metric].x
  }

  /** A stored row is the exact aggregate, metric by metric, of everything ever ingested in its bucket. */
  ghost predicate ExactRow(log: seq<Sample>, k: RollupKey, row: map<string, Value>)
  {
    forall m :: Summarizes(Contribution(row, m, true), ReadingsOf(log, k, m))
  }

  ghost predicate FromLog(rows: seq<Sample>, log: seq<Sample>)
  {
    && Increasing(rows)
    && forall s :: s in rows ==> s.id < |log| && log[s.id] == s
  }

  ghost predicate LogInv(w: World)
  {
    && w.db.nextId == |w.log|
    && (forall i :: 0 <= i < |w.log| ==> w.log[i].id == i && w.log[i].ts >= 0.0)
    && FromLog(w.db.samples, w.log)
  }

  /** A row lies wholly below the cursor of its resolution and is exact. */
  ghost predicate RowOk(log: seq<Sample>, cursors: map<Resolution, int>, k: RollupKey, row: map<string, Value>)
  {
    && k.resolution in cursors
    && Aligned(k.ts, k.resolution)
    && k.ts + k.resolution <= cursors[k.resolution]
    && ExactRow(log, k, row)
  }

  /** Cursors are multiples of their resolution; every row ever stored lies below its cursor and is exact. */
  ghost predicate RowInv(w: World)
  {
    && (forall res :: res in w.db.cursors ==> Aligned(w.db.cursors[res], res))
    && (forall k :: k in w.folded ==> RowOk(w.log, w.db.cursors, k, w.folded[k]))
    && (forall k :: k in w.db.rollups ==> k in w.folded && w.folded[k] == w.db.rollups[k])
  }

  ghost predicate Folded(w: World, s: Sample, res: Resolution)
  {
    KeyOf(s, res) in w.folded
  }

  /** Everything behind a cursor has been folded, and only what both cursors have passed may be gone. */
  ghost predicate ConsumptionInv(w: World)
  {
    && (forall s, res :: s in w.log && res in w.db.cursors && s.ts < w.db.cursors[res] as real ==> Folded(w, s, res))
    && (forall s :: s in w.log && s !in w.db.samples ==>
          && 60 in w.db.cursors && 900 in w.db.cursors
          && s.ts < w.db.cursors[60] as real && s.ts < w.db.cursors[900] as real)
  }

  ghost predicate Inv(w: World)
  {
    LogInv(w) && RowInv(w) && ConsumptionInv(w)
  }

  // ---------------------------------------------------------------- preservation

  lemma {:induction false} ReadingsUnaffected(log: seq<Sample>, s: Sample, k: RollupKey, m: string)
    requires KeyOf(s, k.resolution) != k
    ensures ReadingsOf(log + [s], k, m) == ReadingsOf(log, k, m)
  {
  }

  lemma {:induction false} IngestKeepsRow(w: World, s: Sample, k: RollupKey)
    requires Inv(w) && OnTime(w.db, s.ts) && k in w.folded
    ensures RowOk(w.log + [s], w.db.cursors, k, w.folded[k])
  {
    assert RowOk(w.log, w.db.cursors, k, w.folded[k]);
    AlignedSplits(w.db.cursors[k.resolution], s.ts, k.resolution);
    forall m
      ensures ReadingsOf(w.log + [s], k, m) == ReadingsOf(w.log, k, m)
    {
      ReadingsUnaffected(w.log, s, k, m);
    }
  }

  lemma {:induction false} IngestKeepsInv(w: World, step: Step)
    requires Inv(w) && step.Ingest? && Allowed(w, step)
    ensures Inv(Exec(w, step))
  {
    var w' := Exec(w, step);
    var s := Sample(w.db.nextId, step.device, step.source, step.ts, step.values);
    assert w'.log == w.log + [s];
    assert w'.folded == w.folded;
    forall k | k in w'.folded
      ensures RowOk(w'.log, w'.db.cursors, k, w'.folded[k])
    {
      IngestKeepsRow(w, s, k);
    }
    forall t, res | t in w'.log && res in w'.db.cursors && t.ts < w'.db.cursors[res] as real
      ensures Folded(w', t, res)
    {
      assert t in w.log;
      assert Folded(w, t, res);
    }
  }

  ghost function Ids(rows: seq<Sample>): set<nat>
  {
    set s | s in rows :: s.id
  }

  ghost function GroupEntry(rows: seq<Sample>, k: RollupKey, m: string): Option<Agg>
  {
    var groups := Grouped(rows, k.resolution);
    if k in groups then Get(groups[k], m) else None
  }

  lemma {:induction false} GroupWitness(rows: seq<Sample>, res: Resolution, k: RollupKey) returns (s: Sample)
    requires k in Grouped(rows, res)
    ensures s in rows && KeyOf(s, res) == k
  {
    var last := rows[|rows| - 1];
    if KeyOf(last, res) == k {
      s := last;
    } else {
      s := GroupWitness(rows[..|rows| - 1], res, k);
    }
  }

  lemma {:induction false} GroupFound(rows: seq<Sample>, res: Resolution, s: Sample)
    requires s in rows
    ensures KeyOf(s, res) in Grouped(rows, res)
  {
    var front, last := rows[..|rows| - 1], rows[|rows| - 1];
    if s != last {
      assert rows == front + [last];
      GroupFound(front, res, s);
    }
  }

  lemma {:induction false} GroupStep(front: seq<Sample>, last: Sample, k: RollupKey, m: string)
    ensures GroupEntry(front + [last], k, m)
            == if KeyOf(last, k.resolution) != k then GroupEntry(front, k, m)
               else Combine(GroupEntry(front, k, m), Contribution(last.values, m, false))
  {
    assert (front + [last])[..|front|] == front;
  }

  lemma {:induction false} ReadingsStep(log: seq<Sample>, ids: set<nat>, s: Sample, k: RollupKey, m: string)
    requires s.id < |log| && log[s.id] == s && s.id !in ids
    ensures s.id !in ReadingsAt(log, ids, k, m)
    ensures ReadingsAt(log, ids + {s.id}, k, m)
            == if KeyOf(s, k.resolution) == k && Valid(s, m) then ReadingsAt(log, ids, k, m) + map[s.id := s.values[m].x]
               else ReadingsAt(log, ids, k, m)
  {
  }

  lemma {:induction false} LastReadingCounted(log: seq<Sample>, ids: set<nat>, entry: Option<Agg>, s: Sample,
                                              k: RollupKey, m: string)
    requires s.id < |log| && log[s.id] == s && s.id !in ids && KeyOf(s, k.resolution) == k
    requires Summarizes(entry, ReadingsAt(log, ids, k, m))
    ensures Summarizes(Combine(entry, Contribution(s.values, m, false)), ReadingsAt(log, ids + {s.id}, k, m))
  {
    ReadingsStep(log, ids, s, k, m);
    if Valid(s, m) {
      var x := s.values[m].x;
      DescribesOne(s.id, x);
      SummarizesCombine(entry, ReadingsAt(log, ids, k, m), Contribution(s.values, m, false), map[s.id := x]);
    }
  }

  /** Each group holds exactly the readings of its bucket among the rows. */
  lemma {:induction false} GroupedMeaning(log: seq<Sample>, rows: seq<Sample>, k: RollupKey, m: string)
    requires FromLog(rows, log)
    ensures Summarizes(GroupEntry(rows, k, m), ReadingsAt(log, Ids(rows), k, m))
  {
    if rows != [] {
      var front, last := rows[..|rows| - 1], rows[|rows| - 1];
      assert rows == front + [last];
      GroupedMeaning(log, front, k, m);
      GroupedMeaningStep(log, front, last, k, m);
    }
  }

  lemma {:induction false} GroupedMeaningStep(log: seq<Sample>, front: seq<Sample>, last: Sample, k: RollupKey,
                                              m: string)
    requires FromLog(front + [last], log)
    requires Summarizes(GroupEntry(front, k, m), ReadingsAt(log, Ids(front), k, m))
    ensures Summarizes(GroupEntry(front + [last], k, m), ReadingsAt(log, Ids(front + [last]), k, m))
  {
    assert last in front + [last];
    GroupStep(front, last, k, m);
    assert Ids(front + [last]) == Ids(front) + {last.id};
    ReadingsStep(log, Ids(front), last, k, m);
    if KeyOf(last, k.resolution) == k {
      LastReadingCounted(log, Ids(front), GroupEntry(front, k, m), last, k, m);
    }
  }

  /** The samples of one pass. */
  ghost function PassRows(db: Store, res: Resolution, now: real): seq<Sample>
    requires db.samples != []
  {
    InRange(db.samples, Start(db, res) as real, Stop(db, res, now) as real)
  }

  /** A pass sees every sample ever ingested in the range it closes. */
  lemma {:induction false} PassIsComplete(w: World, res: Resolution, now: real, s: Sample)
    requires Inv(w) && w.db.samples != []
    requires s in w.log && Start(w.db, res) as real <= s.ts < Stop(w.db, res, now) as real
    ensures s in PassRows(w.db, res, now)
  {
    WindowAligned(w, res, now);
  }

  /** In a pass, the rows of a bucket are all the samples ever ingested in it. */
  lemma {:induction false} PassSeesWholeBuckets(w: World, res: Resolution, now: real, k: RollupKey, m: string)
    requires Inv(w) && w.db.samples != [] && k.resolution == res
    requires Start(w.db, res) <= k.ts < Stop(w.db, res, now)
    ensures ReadingsAt(w.log, Ids(PassRows(w.db, res, now)), k, m) == ReadingsOf(w.log, k, m)
  {
    WindowAligned(w, res, now);
    forall i: nat | i < |w.log| && KeyOf(w.log[i], res) == k
      ensures i in Ids(PassRows(w.db, res, now))
    {
      AlignedSplits(Start(w.db, res), w.log[i].ts, res);
      AlignedSplits(Stop(w.db, res, now), w.log[i].ts, res);
      PassIsComplete(w, res, now, w.log[i]);
      assert w.log[i].id == i;
    }
  }

  lemma {:induction false} HourAligned(t: int, res: Resolution)
    requires Aligned(t, res)
    ensures Aligned(t + 3600, res)
  {
    if res == 60 {
      assert (t + 60 * 60) % 60 == 0;
    } else {
      assert (t + 4 * 900) % 900 == 0;
    }
  }

  lemma {:induction false} BucketFixed(t: int, res: Resolution)
    requires Aligned(t, res)
    ensures Bucket(t as real, res) == t
  {
    var n := if res == 60 then t / 60 else t / 900;
    assert t == n * res;
    assert t as real / res as real == n as real;
  }

  /** A pass covers whole buckets, starts at the cursor, and at or before every sample if there is no cursor yet. */
  lemma {:induction false} WindowAligned(w: World, res: Resolution, now: real)
    requires Inv(w) && w.db.samples != []
    ensures Aligned(Start(w.db, res), res) && Aligned(Stop(w.db, res, now), res)
    ensures res in w.db.cursors ==> Start(w.db, res) == w.db.cursors[res]
    ensures res !in w.db.cursors ==> forall s :: s in w.log ==> s.ts >= Start(w.db, res) as real
  {
    HourAligned(Start(w.db, res), res);
    if res in w.db.cursors {
      BucketFixed(w.db.cursors[res], res);
    } else {
      forall s | s in w.log
        ensures s in w.db.samples
      {
      }
    }
  }

  /** Rows written by a pass: their keys lie inside the pass, each bucket holds a sample, and the row is exact. */
  lemma {:induction false} NewRowsExact(w: World, res: Resolution, now: real, k: RollupKey)
    requires Inv(w) && Ready(w.db, res, now)
    requires k in NewRows(w.db, res, now)
    ensures k.resolution == res && Aligned(k.ts, res)
    ensures Start(w.db, res) <= k.ts && k.ts + res <= Stop(w.db, res, now)
    ensures ExactRow(w.log, k, NewRows(w.db, res, now)[k])
  {
    NewRowsInWindow(w, res, now, k);
    forall m
      ensures Summarizes(Contribution(NewRows(w.db, res, now)[k], m, true), ReadingsOf(w.log, k, m))
    {
      NewRowEntryExact(w, res, now, k, m);
    }
  }

  lemma {:induction false} NewRowsInWindow(w: World, res: Resolution, now: real, k: RollupKey)
    requires Inv(w) && Ready(w.db, res, now)
    requires k in NewRows(w.db, res, now)
    ensures k.resolution == res && Aligned(k.ts, res)
    ensures Start(w.db, res) <= k.ts && k.ts + res <= Stop(w.db, res, now)
  {
    var rows := PassRows(w.db, res, now);
    var s := GroupWitness(rows, res, k);
    WindowAligned(w, res, now);
    AlignedSplits(Start(w.db, res), s.ts, res);
    AlignedSplits(Stop(w.db, res, now), s.ts, res);
  }

  lemma {:induction false} EncodedEntry(group: map<string, Agg>, m: string, r: Readings)
    requires Summarizes(Get(group, m), r)
    ensures Summarizes(Contribution(EncodeAll(group), m, true), r)
  {
    if m in group {
      StoredAggregateReadsBack(group[m], r);
    }
  }

  lemma {:induction false} NewRowEntryExact(w: World, res: Resolution, now: real, k: RollupKey, m: string)
    requires Inv(w) && Ready(w.db, res, now)
    requires k in NewRows(w.db, res, now)
    ensures Summarizes(Contribution(NewRows(w.db, res, now)[k], m, true), ReadingsOf(w.log, k, m))
  {
    var rows := PassRows(w.db, res, now);
    NewRowsInWindow(w, res, now, k);
    PassSeesWholeBuckets(w, res, now, k, m);
    RangeKeepsOrder(w.db.samples, Start(w.db, res) as real, Stop(w.db, res, now) as real);
    GroupedMeaning(w.log, rows, k, m);
    EncodedEntry(Grouped(rows, res)[k], m, ReadingsOf(w.log, k, m));
  }

  /** The unique constraint never fires, so no pass is ever rolled back and the cursor never sticks. */
  lemma {:induction false} NeverConflicts(w: World, res: Resolution, now: real)
    requires Inv(w)
    ensures !Conflicts(w.db, res, now)
  {
    if Conflicts(w.db, res, now) {
      var k :| k in NewRows(w.db, res, now) && k in w.db.rollups;
      NewRowIsNew(w, res, now, k);
    }
  }

  lemma {:induction false} SummarizeKeepsInv(w: World, res: Resolution, now: real)
    requires Inv(w)
    ensures Inv(Exec(w, Summarize(res, now)))
  {
    NeverConflicts(w, res, now);
    if !Ready(w.db, res, now) {
      assert Exec(w, Summarize(res, now)) == w by {
        assert w.folded + w.db.rollups == w.folded;
      }
    } else {
      PassKeepsRows(w, res, now);
      PassConsumes(w, res, now);
    }
  }

  lemma {:induction false} NewRowIsNew(w: World, res: Resolution, now: real, k: RollupKey)
    requires Inv(w) && Ready(w.db, res, now) && k in NewRows(w.db, res, now)
    ensures k !in w.folded && k !in w.db.rollups
  {
    NewRowsInWindow(w, res, now, k);
    WindowAligned(w, res, now);
  }

  lemma {:induction false} PassAddsRows(w: World, res: Resolution, now: real)
    requires Inv(w) && Ready(w.db, res, now) && !Conflicts(w.db, res, now)
    ensures var w' := Exec(w, Summarize(res, now));
            && w'.folded == w.folded + NewRows(w.db, res, now)
            && w'.db.rollups == w.db.rollups + NewRows(w.db, res, now)
  {
    AddKnown(w.folded, w.db.rollups, NewRows(w.db, res, now));
  }

  lemma {:induction false} AddKnown<K, V>(all: map<K, V>, known: map<K, V>, new': map<K, V>)
    requires forall k :: k in known ==> k in all && all[k] == known[k]
    ensures all + (known + new') == all + new'
  {
  }

  lemma {:induction false} RowStaysOk(w: World, res: Resolution, now: real, k: RollupKey)
    requires Inv(w) && Ready(w.db, res, now) && k in w.folded
    ensures RowOk(w.log, w.db.cursors[res := Stop(w.db, res, now)], k, w.folded[k])
  {
    assert RowOk(w.log, w.db.cursors, k, w.folded[k]);
    CursorAdvances(w, res, now);
  }

  lemma {:induction false} NewRowOk(w: World, res: Resolution, now: real, k: RollupKey)
    requires Inv(w) && Ready(w.db, res, now) && k in NewRows(w.db, res, now)
    ensures RowOk(w.log, w.db.cursors[res := Stop(w.db, res, now)], k, NewRows(w.db, res, now)[k])
  {
    NewRowsExact(w, res, now, k);
  }

  lemma {:induction false} PassRowOk(w: World, res: Resolution, now: real, k: RollupKey)
    requires Inv(w) && Ready(w.db, res, now) && k in w.folded + NewRows(w.db, res, now)
    ensures RowOk(w.log, w.db.cursors[res := Stop(w.db, res, now)], k, (w.folded + NewRows(w.db, res, now))[k])
  {
    if k in NewRows(w.db, res, now) {
      NewRowOk(w, res, now, k);
    } else {
      RowStaysOk(w, res, now, k);
    }
  }

  lemma {:induction false} PassKeepsRows(w: World, res: Resolution, now: real)
    requires Inv(w) && Ready(w.db, res, now) && !Conflicts(w.db, res, now)
    ensures RowInv(Exec(w, Summarize(res, now)))
  {
    PassAddsRows(w, res, now);
    PassCursors(w, res, now);
    forall k | k in w.folded + NewRows(w.db, res, now)
      ensures RowOk(w.log, w.db.cursors[res := Stop(w.db, res, now)], k, (w.folded + NewRows(w.db, res, now))[k])
    {
      PassRowOk(w, res, now, k);
    }
    WindowAligned(w, res, now);
    AddedRowsOk(w, Exec(w, Summarize(res, now)), NewRows(w.db, res, now));
  }

  /** Adding good rows to a good table, and moving cursors to aligned ones. */
  lemma {:induction false} AddedRowsOk(w: World, w': World, added: map<RollupKey, map<string, Value>>)
    requires RowInv(w) && w'.log == w.log
    requires w'.folded == w.folded + added && w'.db.rollups == w.db.rollups + added
    requires forall res :: res in w'.db.cursors ==> Aligned(w'.db.cursors[res], res)
    requires forall k :: k in w.folded + added ==> RowOk(w.log, w'.db.cursors, k, (w.folded + added)[k])
    ensures RowInv(w')
  {
  }

  /** Whatever the cursor passes over was folded. */
  lemma {:induction false} PassFolds(w: World, res: Resolution, now: real, s: Sample)
    requires Inv(w) && Ready(w.db, res, now) && !Conflicts(w.db, res, now)
    requires s in w.log && s.ts < Stop(w.db, res, now) as real
    ensures Folded(Exec(w, Summarize(res, now)), s, res)
  {
    var w' := Exec(w, Summarize(res, now));
    WindowAligned(w, res, now);
    if s.ts >= Start(w.db, res) as real {
      PassIsComplete(w, res, now, s);
      GroupFound(PassRows(w.db, res, now), res, s);
      assert KeyOf(s, res) in NewRows(w.db, res, now);
      assert KeyOf(s, res) in w'.db.rollups;
    } else {
      assert Folded(w, s, res);
    }
  }

  lemma {:induction false} PassCursors(w: World, res: Resolution, now: real)
    requires Inv(w) && Ready(w.db, res, now) && !Conflicts(w.db, res, now)
    ensures var w' := Exec(w, Summarize(res, now));
            && w'.db.cursors == w.db.cursors[res := Stop(w.db, res, now)]
            && w'.db.samples == w.db.samples && w'.log == w.log
            && (forall k :: k in w.folded ==> k in w'.folded)
            && (res in w.db.cursors ==> w.db.cursors[res] < Stop(w.db, res, now))
  {
    CursorAdvances(w, res, now);
  }

  lemma {:induction false} PassConsumes(w: World, res: Resolution, now: real)
    requires Inv(w) && Ready(w.db, res, now) && !Conflicts(w.db, res, now)
    ensures ConsumptionInv(Exec(w, Summarize(res, now)))
  {
    var w' := Exec(w, Summarize(res, now));
    PassCursors(w, res, now);
    forall s, r | s in w'.log && r in w'.db.cursors && s.ts < w'.db.cursors[r] as real
      ensures Folded(w', s, r)
    {
      if r == res {
        PassFolds(w, res, now, s);
      } else {
        assert Folded(w, s, r);
      }
    }
  }

  lemma {:induction false} CursorAdvances(w: World, res: Resolution, now: real)
    requires Inv(w) && Ready(w.db, res, now)
    ensures res in w.db.cursors ==> w.db.cursors[res] < Stop(w.db, res, now)
  {
    WindowAligned(w, res, now);
  }

  lemma {:induction false} OnlyConsumedExpire(w: World, now: real, policy: Policy, s: Sample)
    requires Inv(w) && s in w.log && s !in Retained(w.db, now, policy).samples
    ensures 60 in w.db.cursors && 900 in w.db.cursors
    ensures s.ts < w.db.cursors[60] as real && s.ts < w.db.cursors[900] as real
  {
    if s in w.db.samples {
      assert s.ts < Safe(w.db.cursors) as real;
      assert s.ts >= 0.0;
    }
  }

  lemma {:induction false} RetainKeepsRows(w: World, now: real, policy: Policy)
    requires Inv(w)
    ensures RowInv(Exec(w, Retain(now, policy)))
  {
    var w' := Exec(w, Retain(now, policy));
    assert w'.folded == w.folded;
    assert forall k :: k in w'.db.rollups ==> k in w.db.rollups && w'.db.rollups[k] == w.db.rollups[k];
  }

  lemma {:induction false} RetainKeepsInv(w: World, now: real, policy: Policy)
    requires Inv(w)
    ensures Inv(Exec(w, Retain(now, policy)))
  {
    var w' := Exec(w, Retain(now, policy));
    RetainKeepsRows(w, now, policy);
    SinceKeepsOrder(w.db.samples, RawCutoff(w.db, now, policy));
    assert w'.folded == w.folded;
    assert LogInv(w');
    forall s, res | s in w'.log && res in w'.db.cursors && s.ts < w'.db.cursors[res] as real
      ensures Folded(w', s, res)
    {
      assert Folded(w, s, res);
    }
    forall s | s in w.log && s !in w'.db.samples
      ensures 60 in w.db.cursors && 900 in w.db.cursors
      ensures s.ts < w.db.cursors[60] as real && s.ts < w.db.cursors[900] as real
    {
      OnlyConsumedExpire(w, now, policy, s);
    }
  }

  /** Every reachable store satisfies the invariant. */
  lemma {:induction false} RunKeepsInv(steps: seq<Step>)
    requires IsRun(steps)
    ensures Inv(After(steps))
  {
    if steps != [] {
      var front, last := steps[..|steps| - 1], steps[|steps| - 1];
      RunKeepsInv(front);
      match last
      case Ingest(_, _, _, _) => IngestKeepsInv(After(front), last);
      case Summarize(res, now) => SummarizeKeepsInv(After(front), res, now);
      case Retain(now, policy) => RetainKeepsInv(After(front), now, policy);
    }
  }
}
