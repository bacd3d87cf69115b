/** What holds of every reachable telemetry store. */
module TelemetryLaws {
  import opened Options
  import opened Aggregates
  import opened Telemetry

  /** Every rollup row in a reachable store is the exact aggregate of all samples ever ingested in its bucket. */
  lemma {:induction false} ReachableRollupsExact(steps: seq<Step>, k: RollupKey)
    requires IsRun(steps)
    ensures var w := After(steps);
            k in w.db.rollups ==>
              && ExactRow(w.log, k, w.db.rollups[k])
              && Aligned(k.ts, k.resolution)
              && k.resolution in w.db.cursors && k.ts + k.resolution <= w.db.cursors[k.resolution]
  {
    var w := After(steps);
    RunKeepsInv(steps);
    assert k in w.db.rollups ==> RowOk(w.log, w.db.cursors, k, w.folded[k]);
  }

  lemma {:induction false} RunStep(steps: seq<Step>, step: Step)
    requires IsRun(steps) && Allowed(After(steps), step)
    ensures IsRun(steps + [step]) && After(steps + [step]) == Exec(After(steps), step)
  {
    assert (steps + [step])[..|steps|] == steps;
  }

  lemma {:induction false} FirstPass(s: Sample)
    requires s.id == 0 && s.ts == 30.0
    ensures var db := EmptyStore.(samples := [s], nextId := 1);
            Ready(db, 60, 120.0) && Start(db, 60) as real <= s.ts < Stop(db, 60, 120.0) as real
  {
    var db := EmptyStore.(samples := [s], nextId := 1);
    assert Earliest([s]) == 30.0;
    assert Start(db, 60) == 0 && Bucket(120.0, 60) == 120;
  }

  /** The laws speak of something: a run that stores a rollup row of any sample taken at 30 seconds. */
  lemma {:induction false} RollupsHappen(values: map<string, Value>) returns (steps: seq<Step>, w: World, s: Sample)
    ensures s == Sample(0, "device", "system", 30.0, values)
    ensures IsRun(steps) && w == After(steps) && Inv(w) && KeyOf(s, 60) in w.db.rollups
  {
    s := Sample(0, "device", "system", 30.0, values);
    var before;
    steps, before := FirstSample(s);
    FirstPass(s);
    RunKeepsInv(steps);
    NeverConflicts(before, 60, 120.0);
    PassStores(before, 60, 120.0, s);
    SummarizeKeepsInv(before, 60, 120.0);
    RunStep(steps, Summarize(60, 120.0));
    steps, w := steps + [Summarize(60, 120.0)], Exec(before, Summarize(60, 120.0));
  }

  lemma {:induction false} FirstSample(s: Sample) returns (steps: seq<Step>, w: World)
    requires s.id == 0 && s.ts == 30.0
    ensures IsRun(steps) && w == After(steps) && w.log == [s]
    ensures w.db == EmptyStore.(samples := [s], nextId := 1)
  {
    RunStep([], Ingest(s.device, s.source, s.ts, s.values));
    steps := [] + [Ingest(s.device, s.source, s.ts, s.values)];
    w := Exec(Genesis, Ingest(s.device, s.source, s.ts, s.values));
  }

  /** A late commit breaks a row: after a run that rolled up the first minute, a sample taken in that minute and committed
      only now leaves the minute's row short of one reading. */
  lemma {:induction false} LateCommitBreaksRow(x: real, y: real)
    returns (steps: seq<Step>, w: World, late: Step, k: RollupKey)
    ensures IsRun(steps) && w == After(steps) && k in w.db.rollups
    ensures late == Ingest("device", "system", 31.0, map["cpu" := Num(y)])
    ensures k in Exec(w, late).db.rollups && !ExactRow(Exec(w, late).log, k, Exec(w, late).db.rollups[k])
  {
    var s;
    steps, w, s := RollupsHappen(map["cpu" := Num(x)]);
    k := KeyOf(s, 60);
    late := Ingest("device", "system", 31.0, map["cpu" := Num(y)]);
    SameMinute(s, Sample(w.db.nextId, late.device, late.source, late.ts, late.values));
    LateRow(w, k, late, "cpu");
  }

  lemma {:induction false} SameMinute(s: Sample, t: Sample)
    requires s.device == t.device && s.source == t.source && s.ts == 30.0 && t.ts == 31.0
    ensures KeyOf(t, 60) == KeyOf(s, 60)
  {
  }

  lemma {:induction false} LateRow(w: World, k: RollupKey, late: Step, m: string)
    requires Inv(w) && k in w.db.rollups && late.Ingest?
    requires var s := Sample(w.db.nextId, late.device, late.source, late.ts, late.values);
             KeyOf(s, k.resolution) == k && Telemetry.Valid(s, m)
    ensures k in Exec(w, late).db.rollups && !ExactRow(Exec(w, late).log, k, Exec(w, late).db.rollups[k])
  {
    var s := Sample(w.db.nextId, late.device, late.source, late.ts, late.values);
    assert RowOk(w.log, w.db.cursors, k, w.folded[k]);
    LateReadingAdds(w.log, s, k, m);
    if Summarizes(Contribution(w.folded[k], m, true), ReadingsOf(w.log + [s], k, m)) {
      SameEntrySameSize(Contribution(w.folded[k], m, true), ReadingsOf(w.log, k, m), ReadingsOf(w.log + [s], k, m));
    }
  }

  lemma {:induction false} PassStores(w: World, res: Resolution, now: real, s: Sample)
    requires Inv(w) && Ready(w.db, res, now) && !Conflicts(w.db, res, now)
    requires s in w.db.samples && Start(w.db, res) as real <= s.ts < Stop(w.db, res, now) as real
    ensures KeyOf(s, res) in Exec(w, Summarize(res, now)).db.rollups
  {
    GroupFound(PassRows(w.db, res, now), res, s);
    PassAddsRows(w, res, now);
  }

  /** A raw sample that is gone was folded, exactly, into its minute row and its quarter-hour row. */
  lemma {:induction false} RetentionNeverOutrunsConsumption(steps: seq<Step>, s: Sample, res: Resolution)
    requires IsRun(steps)
    requires s in After(steps).log && s !in After(steps).db.samples
    ensures Folded(After(steps), s, res)
    ensures ExactRow(After(steps).log, KeyOf(s, res), After(steps).folded[KeyOf(s, res)])
  {
    var w := After(steps);
    RunKeepsInv(steps);
    assert Folded(w, s, res);
    assert RowOk(w.log, w.db.cursors, KeyOf(s, res), w.folded[KeyOf(s, res)]);
  }

  // ---------------------------------------------------------------- the on-time assumption

  /** A late sample does no harm when its bucket is already folded and it carries no usable value. */
  ghost predicate Harmless(w: World, s: Sample, res: Resolution)
  {
    Folded(w, s, res) && forall m :: !Telemetry.Valid(s, m)
  }

  /** When an ingest leaves every row exact: if and only if the sample carries no usable value for a bucket that already has
      its row. */
  lemma {:induction false} IngestExactIff(w: World, device: string, source: string, ts: real, values: map<string,
                                          Value>)
    requires Inv(w)
    ensures var s := Sample(w.db.nextId, device, source, ts, values);
            RowInv(Exec(w, Ingest(device, source, ts, values)))
            <==> forall res :: KeyOf(s, res) in w.folded ==> forall m :: !Telemetry.Valid(s, m)
  {
    var s := Sample(w.db.nextId, device, source, ts, values);
    var w' := Exec(w, Ingest(device, source, ts, values));
    assert w'.log == w.log + [s] && w'.folded == w.folded;
    if RowInv(w') {
      forall res, m | KeyOf(s, res) in w.folded
        ensures !Telemetry.Valid(s, m)
      {
        assert RowOk(w'.log, w'.db.cursors, KeyOf(s, res), w'.folded[KeyOf(s, res)]);
        LateReadingMissed(w, s, KeyOf(s, res), m);
      }
    }
    if forall res :: KeyOf(s, res) in w.folded ==> forall m :: !Telemetry.Valid(s, m) {
      forall k | k in w'.folded
        ensures RowOk(w'.log, w'.db.cursors, k, w'.folded[k])
      {
        UnusedKeepsRow(w, s, k);
      }
    }
  }

  lemma {:induction false} UnusedKeepsRow(w: World, s: Sample, k: RollupKey)
    requires Inv(w) && k in w.folded && (KeyOf(s, k.resolution) == k ==> forall m :: !Telemetry.Valid(s, m))
    ensures RowOk(w.log + [s], w.db.cursors, k, w.folded[k])
  {
    assert RowOk(w.log, w.db.cursors, k, w.folded[k]);
    forall m
      ensures ReadingsOf(w.log + [s], k, m) == ReadingsOf(w.log, k, m)
    {
    }
  }

  /** When an ingest keeps the whole invariant, so that nothing behind a cursor is left unfolded either: if and only if no
      cursor has passed the sample, or it is harmless. */
  lemma {:induction false} IngestKeepsInvIff(w: World, device: string, source: string, ts: real, values: map<string,
                                             Value>)
    requires Inv(w)
    ensures var s := Sample(w.db.nextId, device, source, ts, values);
            Inv(Exec(w, Ingest(device, source, ts, values)))
            <==> ts >= 0.0 && forall res :: res in w.db.cursors ==> ts >= w.db.cursors[res] as real || Harmless(w, s, res)
  {
    var s := Sample(w.db.nextId, device, source, ts, values);
    var w' := Exec(w, Ingest(device, source, ts, values));
    assert w'.log == w.log + [s];
    assert w'.folded == w.folded;
    if Inv(w') {
      assert w'.log[|w.log|] == s;
      forall res | res in w.db.cursors && ts < w.db.cursors[res] as real
        ensures Harmless(w, s, res)
      {
        assert s in w'.log;
        assert Folded(w', s, res);
        forall m
          ensures !Telemetry.Valid(s, m)
        {
          LateReadingMissed(w, s, KeyOf(s, res), m);
        }
      }
    } else if ts >= 0.0 && forall res :: res in w.db.cursors ==> ts >= w.db.cursors[res] as real || Harmless(w, s, res) {
      HarmlessKeepsInv(w, s);
      assert false;
    }
  }

  lemma {:induction false} LateReadingAdds(log: seq<Sample>, s: Sample, k: RollupKey, m: string)
    requires KeyOf(s, k.resolution) == k && Telemetry.Valid(s, m)
    ensures |ReadingsOf(log + [s], k, m)| == |ReadingsOf(log, k, m)| + 1
  {
    var before, after := ReadingsOf(log, k, m), ReadingsOf(log + [s], k, m);
    assert |log| !in before;
    assert after == before[|log| := s.values[m].x];
  }

  /** A usable value that arrives behind its folded row leaves the row short of one reading. */
  lemma {:induction false} LateReadingMissed(w: World, s: Sample, k: RollupKey, m: string)
    requires Inv(w) && KeyOf(s, k.resolution) == k && k in w.folded
    requires RowOk(w.log + [s], w.db.cursors, k, w.folded[k])
    ensures !Telemetry.Valid(s, m)
  {
    if Telemetry.Valid(s, m) {
      LateReadingAdds(w.log, s, k, m);
      assert RowOk(w.log, w.db.cursors, k, w.folded[k]);
      SameEntrySameSize(Contribution(w.folded[k], m, true), ReadingsOf(w.log, k, m), ReadingsOf(w.log + [s], k, m));
    }
  }

  lemma {:induction false} SameEntrySameSize(o: Option<Agg>, r: Readings, s: Readings)
    requires Summarizes(o, r) && Summarizes(o, s)
    ensures |r| == |s|
  {
  }

  lemma {:induction false} HarmlessKeepsInv(w: World, s: Sample)
    requires Inv(w) && s.id == w.db.nextId && s.ts >= 0.0
    requires forall res :: res in w.db.cursors ==> s.ts >= w.db.cursors[res] as real || Harmless(w, s, res)
    ensures Inv(Exec(w, Ingest(s.device, s.source, s.ts, s.values)))
  {
    var w' := Exec(w, Ingest(s.device, s.source, s.ts, s.values));
    assert w'.log == w.log + [s];
    assert w'.folded == w.folded;
    forall k | k in w'.folded
      ensures RowOk(w'.log, w'.db.cursors, k, w'.folded[k])
    {
      assert RowOk(w.log, w.db.cursors, k, w.folded[k]);
      AlignedSplits(w.db.cursors[k.resolution], s.ts, k.resolution);
      UnusedKeepsRow(w, s, k);
    }
    forall t, res | t in w'.log && res in w'.db.cursors && t.ts < w'.db.cursors[res] as real
      ensures Folded(w', t, res)
    {
      if t in w.log {
        assert Folded(w, t, res);
      }
    }
  }

  // ---------------------------------------------------------------- catching up

  /** `n` maintenance passes at one instant. */
  function Passes(w: World, res: Resolution, now: real, n: nat): World
  {
    if n == 0 then w else Exec(Passes(w, res, now, n - 1), Summarize(res, now))
  }

  /** One pass from `start`. */
  function Moved(start: int, end: int, chunk: int): int
  {
    if end <= start then start else if end - start <= chunk then end else start + chunk
  }

  /** One pass moves the cursor by the whole lag or one chunk, whichever is less, and is a no-op without lag. */
  lemma {:induction false} PassMovesCursor(w: World, res: Resolution, now: real)
    requires Inv(w) && w.db.samples != []
    ensures var w' := Exec(w, Summarize(res, now));
            && Inv(w')
            && w'.db.samples == w.db.samples
            && Start(w'.db, res) == Moved(Start(w.db, res), Bucket(now, res), 3600)
  {
    var w' := Exec(w, Summarize(res, now));
    SummarizeKeepsInv(w, res, now);
    NeverConflicts(w, res, now);
    if Ready(w.db, res, now) {
      WindowAligned(w, res, now);
      assert w'.db.cursors[res] == Stop(w.db, res, now);
      BucketFixed(w'.db.cursors[res], res);
      assert Start(w'.db, res) == Stop(w.db, res, now);
    } else {
      assert w'.db == w.db;
    }
  }

  /** Where `n` chunks of an hour lead. */
  function Advanced(start: int, end: int, n: nat): int
  {
    if n * 3600 < end - start then start + n * 3600 else end
  }

  lemma {:induction false} AdvancedStep(start: int, end: int, n: nat)
    requires n > 0 && start <= end
    ensures Advanced(start, end, n) == Moved(Advanced(start, end, n - 1), end, 3600)
  {
  }

  lemma {:induction false} PassesStep(w: World, res: Resolution, now: real, n: nat)
    requires n > 0
    requires Inv(Passes(w, res, now, n - 1)) && Passes(w, res, now, n - 1).db.samples != []
    ensures Inv(Passes(w, res, now, n))
    ensures Passes(w, res, now, n).db.samples == Passes(w, res, now, n - 1).db.samples
    ensures Start(Passes(w, res, now, n).db, res)
            == Moved(Start(Passes(w, res, now, n - 1).db, res), Bucket(now, res), 3600)
  {
    PassMovesCursor(Passes(w, res, now, n - 1), res, now);
  }

  lemma {:induction false} PassesKeep(w: World, res: Resolution, now: real, n: nat)
    requires Inv(w) && w.db.samples != []
    ensures Inv(Passes(w, res, now, n)) && Passes(w, res, now, n).db.samples == w.db.samples
  {
    if n > 0 {
      PassesKeep(w, res, now, n - 1);
      PassesStep(w, res, now, n);
    }
  }

  /** The cursor position after `n` passes. */
  ghost function CursorAfter(w: World, res: Resolution, now: real, n: nat): int
    requires Inv(w) && w.db.samples != []
  {
    PassesKeep(w, res, now, n);
    Start(Passes(w, res, now, n).db, res)
  }

  /** Rollups catch up: after `n` passes the cursor has advanced `n` hours or has reached the last complete bucket. */
  lemma {:induction false} CatchUp(w: World, res: Resolution, now: real, n: nat)
    requires Inv(w) && w.db.samples != [] && Start(w.db, res) <= Bucket(now, res)
    ensures CursorAfter(w, res, now, n) == Advanced(Start(w.db, res), Bucket(now, res), n)
  {
    if n > 0 {
      CatchUp(w, res, now, n - 1);
      AdvancedStep(Start(w.db, res), Bucket(now, res), n);
      CursorStep(w, res, now, n);
    }
  }

  lemma {:induction false} CursorStep(w: World, res: Resolution, now: real, n: nat)
    requires n > 0 && Inv(w) && w.db.samples != []
    ensures CursorAfter(w, res, now, n) == Moved(CursorAfter(w, res, now, n - 1), Bucket(now, res), 3600)
  {
    PassesKeep(w, res, now, n - 1);
    PassesStep(w, res, now, n);
  }

  /** The lag is gone exactly when `n` chunks of an hour cover it. */
  lemma {:induction false} CaughtUpIff(w: World, res: Resolution, now: real, n: nat)
    requires Inv(w) && w.db.samples != [] && Start(w.db, res) <= Bucket(now, res)
    ensures CursorAfter(w, res, now, n) == Bucket(now, res) <==> n * 3600 >= Bucket(now, res) - Start(w.db, res)
  {
    CatchUp(w, res, now, n);
  }
}
