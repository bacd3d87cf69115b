/** The range query of sparkscope/history.py: which readings each point of the answer stands for. */
module History {
  import opened Cells
  import opened Options
  import opened Aggregates
  import opened Telemetry

  datatype Query = Query(device: string, source: string, metric: string, start: real, end: real, maxPoints: int)

  datatype Point = Point(ts: real, value: real, min: real, max: real, count: int, bucketSeconds: int,
                         lastSampleTs: Option<real>)

  // ---------------------------------------------------------------- plan

  /** The resolution the span asks for; 0 stands for raw samples. */
  function Base(q: Query): int
  {
    if q.end - q.start > 604800.0 then 900 else if q.end - q.start > 3600.0 then 60 else 0
  }

  function Candidates(q: Query): seq<Resolution>
  {
    if Base(q) == 900 then [900] else [60, 900]
  }

  predicate RawHit(q: Query, s: Sample)
  {
    s.device == q.device && s.source == q.source && q.start <= s.ts <= q.end && Valid(s, q.metric)
  }

  predicate RollupHit(rollups: map<RollupKey, map<string, Value>>, q: Query, c: Resolution, k: RollupKey)
  {
    && k in rollups && k.device == q.device && k.source == q.source && k.resolution == c
    && q.start <= k.ts as real <= q.end
    && Contribution(rollups[k], q.metric, true).Some?
  }

  ghost function Hits(db: Store, q: Query, c: Resolution): set<RollupKey>
  {
    set k | k in db.rollups && RollupHit(db.rollups, q, c, k)
  }

  ghost function FirstWithHits(db: Store, q: Query, candidates: seq<Resolution>): Option<Resolution>
  {
    if candidates == [] then None
    else if Hits(db, q, candidates[0]) != {} then Some(candidates[0])
    else FirstWithHits(db, q, candidates[1..])
  }

  ghost predicate HasRaw(db: Store, q: Query)
  {
    exists s :: s in db.samples && RawHit(q, s)
  }

  /** The rollup resolution the answer uses, if any. */
  ghost function Chosen(db: Store, q: Query): Option<Resolution>
  {
    if Base(q) == 0 && HasRaw(db, q) then None else FirstWithHits(db, q, Candidates(q))
  }

  function RawWidth(q: Query): (width: int)
    requires q.maxPoints >= 1
    ensures width >= 1
  {
    var n := Ceil((q.end - q.start) / q.maxPoints as real);
    if n > 1 then n else 1
  }

  function Width(q: Query, c: Option<Resolution>): (width: int)
    requires q.maxPoints >= 1
    ensures width >= 1
  {
    if c.Some? && c.value > RawWidth(q) then c.value else RawWidth(q)
  }

  // ---------------------------------------------------------------- what is shown where

  /** The reading is represented by a rollup row of the answer. */
  ghost predicate ViaRollup(db: Store, q: Query, s: Sample)
  {
    && Chosen(db, q).Some? && Valid(s, q.metric)
    && KeyOf(s, Chosen(db, q).value) in Hits(db, q, Chosen(db, q).value)
  }

  /** The reading is represented by its own raw row. */
  ghost predicate Direct(db: Store, q: Query, s: Sample)
  {
    s in db.samples && RawHit(q, s) && !ViaRollup(db, q, s)
  }

  ghost function Place(db: Store, q: Query, s: Sample): int
    requires q.maxPoints >= 1
  {
    Div(PlacedAt(db, q, s) - q.start, Width(q, Chosen(db, q)))
  }

  /** The instant that stands for the reading: its rollup's, or its own. */
  ghost function PlacedAt(db: Store, q: Query, s: Sample): real
  {
    if ViaRollup(db, q, s) then KeyOf(s, Chosen(db, q).value).ts as real else s.ts
  }

  /** The readings behind point `j`. */
  ghost function Cell(w: World, q: Query, j: int): Readings
    requires q.maxPoints >= 1
  {
    map i: nat | i < |w.log| && (ViaRollup(w.db, q, w.log[i]) || Direct(w.db, q, w.log[i])) && Place(w.db, q, w.log[i]) == j
      :: w.log[i].values[q.metric].x
  }

  /** The last sample time is withheld exactly when a rollup contributed, and is otherwise the latest one. */
  ghost predicate LastOk(w: World, q: Query, j: int, last: Option<real>)
    requires q.maxPoints >= 1
  {
    match last
    case None => exists i :: i in Cell(w, q, j) && ViaRollup(w.db, q, w.log[i])
    case Some(t) =>
      && (forall i :: i in Cell(w, q, j) ==> Direct(w.db, q, w.log[i]) && w.log[i].ts <= t)
      && exists i :: i in Cell(w, q, j) && w.log[i].ts == t
  }

  /** A point is the exact aggregate of its cell. */
  ghost predicate PointOk(w: World, q: Query, j: int, p: Point)
    requires q.maxPoints >= 1
  {
    && p.ts == q.start + (j * Width(q, Chosen(w.db, q))) as real
    && p.bucketSeconds == Width(q, Chosen(w.db, q))
    && p.count > 0 && p.min <= p.value <= p.max
    && p.value == Total(Cell(w, q, j)) / p.count as real
    && Describes(Agg(Total(Cell(w, q, j)), p.count, p.min, p.max), Cell(w, q, j))
    && LastOk(w, q, j, p.lastSampleTs)
  }

  // ---------------------------------------------------------------- the answer, reading by reading

  /** A retained reading of the range sits in exactly one point. */
  lemma {:induction false} RetainedReadingShownOnce(w: World, q: Query, i: nat, j: int)
    requires Inv(w) && q.maxPoints >= 1
    requires i < |w.log| && w.log[i] in w.db.samples && RawHit(q, w.log[i])
    ensures i in Cell(w, q, j) <==> j == Place(w.db, q, w.log[i])
  {
  }

  /** Any other reading shown has lost its raw row, or lies past the end in the last rollup bucket of the answer. */
  lemma {:induction false} ExtraReadingExpiredOrStraddling(w: World, q: Query, i: nat, j: int)
    requires Inv(w) && q.maxPoints >= 1
    ensures i in Cell(w, q, j) && !(w.log[i] in w.db.samples && RawHit(q, w.log[i])) ==>
              && Chosen(w.db, q).Some?
              && w.log[i].device == q.device && w.log[i].source == q.source && w.log[i].ts >= q.start
              && (w.log[i] !in w.db.samples
                  || (Bucket(w.log[i].ts, Chosen(w.db, q).value) as real <= q.end < w.log[i].ts))
  {
  }

  /** The rollups are a transparent cache: a reading whose raw row is still there and that does not lie past the end is
      shown exactly if it is a valid reading of the range, whatever has been rolled up. */
  lemma {:induction false} CacheIsTransparent(w: World, q: Query, i: nat)
    requires Inv(w) && q.maxPoints >= 1 && i < |w.log|
    requires w.log[i] in w.db.samples && w.log[i].ts <= q.end
    ensures (exists j :: i in Cell(w, q, j)) <==> RawHit(q, w.log[i])
  {
    var s := w.log[i];
    if RawHit(q, s) {
      assert i in Cell(w, q, Place(w.db, q, s));
    }
  }

  /** The reading is in the cell of exactly one of these points. */
  ghost predicate ShownOnce(w: World, q: Query, cells: seq<int>, i: nat)
    requires q.maxPoints >= 1
  {
    && (exists n :: 0 <= n < |cells| && i in Cell(w, q, cells[n]))
    && forall m, n :: 0 <= m < |cells| && 0 <= n < |cells| && i in Cell(w, q, cells[m]) && i in Cell(w, q, cells[n]) ==> m == n
  }

  lemma {:induction false} ShownInOneCell(w: World, q: Query, cells: seq<int>, i: nat)
    requires q.maxPoints >= 1
    requires i < |w.log| && (ViaRollup(w.db, q, w.log[i]) || Direct(w.db, q, w.log[i]))
    requires forall j :: j in cells <==> Cell(w, q, j) != map[]
    requires forall m, n :: 0 <= m < n < |cells| ==> cells[m] < cells[n]
    ensures ShownOnce(w, q, cells, i)
  {
    var j := Place(w.db, q, w.log[i]);
    assert forall l :: i in Cell(w, q, l) <==> l == j;
    assert j in cells;
    var n :| 0 <= n < |cells| && cells[n] == j;
  }

  lemma {:induction false} AnswerComplete(w: World, q: Query, cells: seq<int>)
    requires Inv(w) && q.maxPoints >= 1
    requires forall j :: j in cells <==> Cell(w, q, j) != map[]
    requires forall m, n :: 0 <= m < n < |cells| ==> cells[m] < cells[n]
    ensures Complete(w, q, cells)
  {
    forall i: nat | Kept(w, q, i) || exists res :: Serves(w, q, res) && Rolled(w, q, res, i)
      ensures ShownOnce(w, q, cells, i)
    {
      ShownIff(w, q, i);
      ShownInOneCell(w, q, cells, i);
    }
  }

  // ---------------------------------------------------------------- the answer, on tables and readings

  /** A usable reading of the queried series, ever ingested. */
  predicate Asked(w: World, q: Query, i: nat)
  {
    && i < |w.log| && w.log[i].device == q.device && w.log[i].source == q.source
    && q.metric in w.log[i].values && w.log[i].values[q.metric].Num?
  }

  /** Its raw row is still stored and lies in the range. */
  predicate Kept(w: World, q: Query, i: nat)
  {
    Asked(w, q, i) && w.log[i] in w.db.samples && q.start <= w.log[i].ts <= q.end
  }

  /** The row of its bucket is stored and starts in the range, whether the reading has expired or not. */
  predicate Rolled(w: World, q: Query, res: Resolution, i: nat)
  {
    && Asked(w, q, i)
    && RollupKey(q.device, q.source, res, Bucket(w.log[i].ts, res)) in w.db.rollups
    && q.start <= Bucket(w.log[i].ts, res) as real <= q.end
  }

  ghost predicate AnyRolled(w: World, q: Query, res: Resolution)
  {
    exists i: nat :: Rolled(w, q, res, i)
  }

  /** The rollups that serve the query: quarter-hour rows over more than a week; minute rows, or quarter-hour rows where
      there are none, over more than an hour; and the same over an hour or less once no raw row is left. */
  ghost predicate Serves(w: World, q: Query, res: Resolution)
  {
    && AnyRolled(w, q, res)
    && (q.end - q.start > 604800.0 ==> res == 900)
    && (q.end - q.start <= 604800.0 && res == 900 ==> !AnyRolled(w, q, 60))
    && (q.end - q.start <= 3600.0 ==> forall i: nat :: !Kept(w, q, i))
  }

  lemma {:induction false} RowOfReading(w: World, q: Query, res: Resolution, i: nat)
    requires Inv(w)
    ensures Rolled(w, q, res, i) <==> Asked(w, q, i) && KeyOf(w.log[i], res) in Hits(w.db, q, res)
  {
    if Rolled(w, q, res, i) {
      var k := KeyOf(w.log[i], res);
      assert RowOk(w.log, w.db.cursors, k, w.folded[k]);
      assert i in ReadingsOf(w.log, k, q.metric);
      assert Summarizes(Contribution(w.db.rollups[k], q.metric, true), ReadingsOf(w.log, k, q.metric));
    }
  }

  lemma {:induction false} ReadingOfRow(w: World, q: Query, res: Resolution, k: RollupKey) returns (i: nat)
    requires Inv(w) && k in Hits(w.db, q, res)
    ensures Rolled(w, q, res, i)
  {
    assert RowOk(w.log, w.db.cursors, k, w.folded[k]);
    assert Summarizes(Contribution(w.db.rollups[k], q.metric, true), ReadingsOf(w.log, k, q.metric));
    i :| i in ReadingsOf(w.log, k, q.metric);
  }

  lemma {:induction false} HitsAreReadings(w: World, q: Query, res: Resolution)
    requires Inv(w)
    ensures Hits(w.db, q, res) != {} <==> AnyRolled(w, q, res)
  {
    if Hits(w.db, q, res) != {} {
      var k :| k in Hits(w.db, q, res);
      var i := ReadingOfRow(w, q, res, k);
    }
    if AnyRolled(w, q, res) {
      var i: nat :| Rolled(w, q, res, i);
      RowOfReading(w, q, res, i);
    }
  }

  lemma {:induction false} RawAreReadings(w: World, q: Query)
    requires Inv(w)
    ensures HasRaw(w.db, q) <==> exists i: nat :: Kept(w, q, i)
  {
    if HasRaw(w.db, q) {
      var s :| s in w.db.samples && RawHit(q, s);
      assert Kept(w, q, s.id);
    }
    if exists i: nat :: Kept(w, q, i) {
      var i: nat :| Kept(w, q, i);
      assert RawHit(q, w.log[i]);
    }
  }

  lemma {:induction false} FallbackOrder(db: Store, q: Query)
    ensures FirstWithHits(db, q, [900]) == if Hits(db, q, 900) != {} then Some(900) else None
    ensures FirstWithHits(db, q, [60, 900]) == if Hits(db, q, 60) != {} then Some(60) else FirstWithHits(db, q, [900])
  {
    assert FirstWithHits(db, q, []) == None;
    assert [900][1..] == [];
    assert [60, 900][1..] == [900];
  }

  /** The resolution chosen is the one that serves. */
  lemma {:induction false} ChosenServes(w: World, q: Query, res: Resolution)
    requires Inv(w)
    ensures Chosen(w.db, q) == Some(res) <==> Serves(w, q, res)
  {
    HitsAreReadings(w, q, 60);
    HitsAreReadings(w, q, 900);
    RawAreReadings(w, q);
    FallbackOrder(w.db, q);
  }

  lemma {:induction false} DirectIff(w: World, q: Query, i: nat)
    requires i < |w.log|
    ensures Direct(w.db, q, w.log[i]) <==> Kept(w, q, i) && !ViaRollup(w.db, q, w.log[i])
  {
  }

  /** A reading is shown through a rollup exactly if the row of its bucket serves the query, and directly exactly if its own
      row is there and does not. */
  lemma {:induction false} ShownIff(w: World, q: Query, i: nat)
    requires Inv(w) && i < |w.log|
    ensures ViaRollup(w.db, q, w.log[i]) <==> exists res :: Serves(w, q, res) && Rolled(w, q, res, i)
    ensures Direct(w.db, q, w.log[i]) <==> Kept(w, q, i) && !ViaRollup(w.db, q, w.log[i])
  {
    DirectIff(w, q, i);
    if ViaRollup(w.db, q, w.log[i]) {
      var res := Chosen(w.db, q).value;
      ChosenServes(w, q, res);
      RowOfReading(w, q, res, i);
    }
    if exists res :: Serves(w, q, res) && Rolled(w, q, res, i) {
      var res :| Serves(w, q, res) && Rolled(w, q, res, i);
      ChosenServes(w, q, res);
      RowOfReading(w, q, res, i);
    }
  }

  /** Every reading whose bucket's row serves the query is in exactly one point, expired or not, and so is every reading
      whose raw row is still there. */
  ghost predicate Complete(w: World, q: Query, cells: seq<int>)
    requires q.maxPoints >= 1
  {
    && (forall res, i: nat :: Serves(w, q, res) && Rolled(w, q, res, i) ==> ShownOnce(w, q, cells, i))
    && (forall i: nat :: Kept(w, q, i) ==> ShownOnce(w, q, cells, i))
  }

  /** The least whole number of seconds, at least one, that cuts the span into at most `max_points` and is no finer than the
      rollups that serve the query. */
  ghost predicate LeastWidth(w: World, q: Query, width: int)
    requires q.maxPoints >= 1
  {
    && width >= 1 && width as real >= (q.end - q.start) / q.maxPoints as real
    && (forall res :: Serves(w, q, res) ==> width >= res)
    && (width == 1 || (width - 1) as real < (q.end - q.start) / q.maxPoints as real
        || exists res :: Serves(w, q, res) && width == res)
  }

  /** The point spans the start of the reading's bucket if that bucket's row serves the query, and the reading's own time if
      not. */
  ghost predicate Spans(w: World, q: Query, p: Point, i: nat)
  {
    || (exists res :: Serves(w, q, res) && Rolled(w, q, res, i)
                      && p.ts <= Bucket(w.log[i].ts, res) as real < p.ts + p.bucketSeconds as real)
    || (&& Kept(w, q, i) && (forall res :: Serves(w, q, res) ==> !Rolled(w, q, res, i))
        && p.ts <= w.log[i].ts < p.ts + p.bucketSeconds as real)
  }

  /** The last sample time is withheld exactly if a rollup stands for some reading of the cell, and is otherwise the time of
      its latest reading. */
  ghost predicate Dated(w: World, q: Query, j: int, last: Option<real>)
    requires q.maxPoints >= 1
  {
    && (last.None? <==> exists i, res :: i in Cell(w, q, j) && Serves(w, q, res) && Rolled(w, q, res, i))
    && (last.Some? ==>
          && (forall i :: i in Cell(w, q, j) ==> w.log[i].ts <= last.value)
          && exists i :: i in Cell(w, q, j) && w.log[i].ts == last.value)
  }

  lemma {:induction false} LastIsDated(w: World, q: Query, j: int, last: Option<real>)
    requires Inv(w) && q.maxPoints >= 1 && LastOk(w, q, j, last)
    ensures Dated(w, q, j, last)
  {
    forall i | i in Cell(w, q, j)
      ensures ViaRollup(w.db, q, w.log[i]) <==> exists res :: Serves(w, q, res) && Rolled(w, q, res, i)
    {
      ShownIff(w, q, i);
    }
  }

  lemma {:induction false} WidthIsLeast(w: World, q: Query)
    requires Inv(w) && q.maxPoints >= 1
    ensures LeastWidth(w, q, Width(q, Chosen(w.db, q)))
  {
    ChosenServes(w, q, 60);
    ChosenServes(w, q, 900);
  }

  lemma {:induction false} PlaceInterval(db: Store, q: Query, s: Sample, j: int, width: int, ts: real)
    requires q.maxPoints >= 1 && j == Place(db, q, s) && width == Width(q, Chosen(db, q))
    requires ts == q.start + (j * width) as real
    ensures ts <= PlacedAt(db, q, s) < ts + width as real
  {
    PlaceSpans(PlacedAt(db, q, s) - q.start, j, width);
  }

  lemma {:induction false} InCell(w: World, q: Query, j: int, i: nat)
    requires q.maxPoints >= 1 && i in Cell(w, q, j)
    ensures i < |w.log| && (ViaRollup(w.db, q, w.log[i]) || Direct(w.db, q, w.log[i])) && Place(w.db, q, w.log[i]) == j
  {
  }

  lemma {:induction false} PlacedSpans(w: World, q: Query, p: Point, i: nat)
    requires Inv(w) && i < |w.log| && (ViaRollup(w.db, q, w.log[i]) || Direct(w.db, q, w.log[i]))
    requires p.ts <= PlacedAt(w.db, q, w.log[i]) < p.ts + p.bucketSeconds as real
    ensures Spans(w, q, p, i)
  {
    ShownIff(w, q, i);
    if ViaRollup(w.db, q, w.log[i]) {
      var res := Chosen(w.db, q).value;
      ChosenServes(w, q, res);
      RowOfReading(w, q, res, i);
    }
  }

  lemma {:induction false} PlaceSpans(t: real, j: int, width: int)
    requires width >= 1 && Div(t, width) == j
    ensures (j * width) as real <= t < (j * width) as real + width as real
  {
  }

  // ---------------------------------------------------------------- selection loops

  /** The raw rows of the range whose value for the metric passes the filter. */
  method ValidRaw(samples: seq<Sample>, q: Query) returns (rows: seq<Sample>)
    ensures forall s :: s in rows <==> s in samples && RawHit(q, s)
    ensures Increasing(samples) ==> Increasing(rows)
  {
    rows := [];
    for i := 0 to |samples|
      invariant forall s :: s in rows <==> s in samples[..i] && RawHit(q, s)
      invariant Increasing(samples) ==> Increasing(rows)
    {
      var row := samples[i];
      if row.device == q.device && row.source == q.source && q.start <= row.ts <= q.end {
        var valid := Accumulate(map[], if q.metric in row.values then map[q.metric := row.values[q.metric]] else map[],
                                false);
        if q.metric in valid {
          assert Increasing(samples) ==> forall s :: s in samples[..i] ==> s.id < row.id;
          rows := rows + [row];
        }
      }
      assert samples[..i + 1] == samples[..i] + [row];
    }
    assert samples[..|samples|] == samples;
  }

  /** The rollup rows of one resolution in the range whose entry for the metric passes the filter. */
  method ValidRollups(db: Store, q: Query, c: Resolution) returns (rows: seq<RollupKey>)
    ensures forall k :: k in rows <==> k in Hits(db, q, c)
    ensures forall i, j :: 0 <= i < j < |rows| ==> rows[i] != rows[j]
  {
    rows := [];
    var todo := db.rollups.Keys;
    while todo != {}
      invariant todo <= db.rollups.Keys
      invariant forall k :: k in rows <==> k in db.rollups && k !in todo && RollupHit(db.rollups, q, c, k)
      invariant forall i, j :: 0 <= i < j < |rows| ==> rows[i] != rows[j]
      decreases todo
    {
      var k :| k in todo;
      todo := todo - {k};
      if k.device == q.device && k.source == q.source && k.resolution == c && q.start <= k.ts as real <= q.end {
        var row := db.rollups[k];
        var valid := Accumulate(map[], if q.metric in row then map[q.metric := row[q.metric]] else map[], true);
        if q.metric in valid {
          rows := rows + [k];
        }
      }
    }
  }

  /** The fallback loop over resolutions. */
  method ChooseRollups(db: Store, q: Query, raw: seq<Sample>) returns (c: Option<Resolution>, rows: seq<RollupKey>)
    requires raw != [] <==> HasRaw(db, q)
    ensures c == Chosen(db, q)
    ensures c == Some(60) <==> Hits(db, q, 60) != {} && q.end - q.start <= 604800.0 && (q.end - q.start > 3600.0 || raw == [])
    ensures c == Some(900) <==>
              (&& Hits(db, q, 900) != {}
               && (q.end - q.start > 604800.0 || (Hits(db, q, 60) == {} && (q.end - q.start > 3600.0 || raw == []))))
    ensures forall k :: k in rows <==> c.Some? && k in Hits(db, q, c.value)
    ensures forall i, j :: 0 <= i < j < |rows| ==> rows[i] != rows[j]
  {
    c, rows := None, [];
    FallbackOrder(db, q);
    if Base(q) != 0 || raw == [] {
      var candidates := Candidates(q);
      var n := 0;
      while n < |candidates|
        invariant 0 <= n <= |candidates|
        invariant FirstWithHits(db, q, candidates) == FirstWithHits(db, q, candidates[n..])
        invariant rows == []
      {
        rows := ValidRollups(db, q, candidates[n]);
        if rows != [] {
          assert rows[0] in rows;
          c := Some(candidates[n]);
          return;
        }
        assert Hits(db, q, candidates[n]) == {};
        n := n + 1;
      }
    }
  }

  // ---------------------------------------------------------------- bucketing

  type Buckets = map<int, map<string, Agg>>

  function Entry(buckets: Buckets, j: int, metric: string): Option<Agg>
  {
    if j in buckets then Get(buckets[j], metric) else None
  }

  ghost predicate OnlyMetric(buckets: Buckets, metric: string)
  {
    forall j :: j in buckets ==> metric in buckets[j]
  }

  /** `accumulate(buckets.setdefault(index, {}), {metric: item}, True)`. */
  method Put(buckets: Buckets, index: int, metric: string, item: Agg) returns (r: Buckets)
    requires Item(Encode(item), true) == Some(item)
    ensures forall j :: Entry(r, j, metric)
                        == if j == index then Combine(Entry(buckets, j, metric), Some(item)) else Entry(buckets, j, metric)
    ensures r.Keys == buckets.Keys + {index}
    ensures OnlyMetric(buckets, metric) ==> OnlyMetric(r, metric)
  {
    var target: map<string, Agg> := if index in buckets then buckets[index] else map[];
    var entry := Accumulate(target, map[metric := Encode(item)], true);
    assert Get(entry, metric) == Combine(Get(target, metric), Some(item));
    r := buckets[index := entry];
  }

  /** The readings that the rollup rows `keys` bring to point `j`. */
  ghost function RollupCell(log: seq<Sample>, q: Query, width: int, c: Resolution, keys: set<RollupKey>, j: int): Readings
    requires width >= 1
  {
    map i: nat | i < |log| && Valid(log[i], q.metric) && KeyOf(log[i], c) in keys
                 && Div(KeyOf(log[i], c).ts as real - q.start, width) == j
      :: log[i].values[q.metric].x
  }

  /** The readings that the raw rows `ids` bring to point `j`. */
  ghost function RawCell(log: seq<Sample>, q: Query, width: int, ids: set<nat>, j: int): Readings
    requires width >= 1
  {
    map i: nat | i in ids && i < |log| && Valid(log[i], q.metric) && Div(log[i].ts - q.start, width) == j
      :: log[i].values[q.metric].x
  }

  lemma {:induction false} RollupCellStep(log: seq<Sample>, q: Query, width: int, c: Resolution, keys: set<RollupKey>,
                                          k: RollupKey, j: int)
    requires width >= 1 && k.resolution == c && k !in keys
    ensures RollupCell(log, q, width, c, keys, j).Keys !! ReadingsOf(log, k, q.metric).Keys
    ensures RollupCell(log, q, width, c, keys + {k}, j)
            == if Div(k.ts as real - q.start, width) == j
               then RollupCell(log, q, width, c, keys, j) + ReadingsOf(log, k, q.metric)
               else RollupCell(log, q, width, c, keys, j)
  {
  }

  lemma {:induction false} RawCellStep(log: seq<Sample>, q: Query, width: int, ids: set<nat>, s: Sample, j: int)
    requires width >= 1 && s.id < |log| && log[s.id] == s && s.id !in ids && Valid(s, q.metric)
    ensures RawCell(log, q, width, ids + {s.id}, j)
            == if Div(s.ts - q.start, width) == j
               then RawCell(log, q, width, ids, j) + map[s.id := s.values[q.metric].x]
               else RawCell(log, q, width, ids, j)
    ensures s.id !in RawCell(log, q, width, ids, j)
  {
  }

  /** A rollup hit is the exact aggregate of its bucket, and survives the filter a second time. */
  ghost predicate HitExact(w: World, q: Query, k: RollupKey)
    requires k in w.db.rollups
  {
    var item := Contribution(w.db.rollups[k], q.metric, true);
    item.Some? && Describes(item.value, ReadingsOf(w.log, k, q.metric)) && Item(Encode(item.value), true) == item
  }

  lemma {:induction false} HitsExact(w: World, q: Query, c: Resolution)
    requires Inv(w)
    ensures forall k :: k in Hits(w.db, q, c) ==> HitExact(w, q, k)
  {
    forall k | k in Hits(w.db, q, c)
      ensures HitExact(w, q, k)
    {
      assert RowOk(w.log, w.db.cursors, k, w.folded[k]);
      var item := Contribution(w.db.rollups[k], q.metric, true).value;
      assert Summarizes(Contribution(w.db.rollups[k], q.metric, true), ReadingsOf(w.log, k, q.metric));
      StoredAggregateReadsBack(item, ReadingsOf(w.log, k, q.metric));
    }
  }

  lemma {:induction false} RollupPlaced(w: World, q: Query, width: int, c: Resolution, done: set<RollupKey>,
                                        k: RollupKey, before: Option<Agg>, j: int)
    requires width >= 1 && k in w.db.rollups && HitExact(w, q, k) && k.resolution == c && k !in done
    requires Summarizes(before, RollupCell(w.log, q, width, c, done, j))
    ensures Summarizes(if j == Div(k.ts as real - q.start, width)
                       then Combine(before, Contribution(w.db.rollups[k], q.metric, true)) else before,
                       RollupCell(w.log, q, width, c, done + {k}, j))
  {
    RollupCellStep(w.log, q, width, c, done, k, j);
    if j == Div(k.ts as real - q.start, width) {
      SummarizesCombine(before, RollupCell(w.log, q, width, c, done, j),
                        Contribution(w.db.rollups[k], q.metric, true), ReadingsOf(w.log, k, q.metric));
    }
  }

  /** Every bucket holds the exact aggregate of what the rollup rows `done` bring to it. */
  ghost predicate RollupBuckets(log: seq<Sample>, q: Query, width: int, c: Resolution, done: set<RollupKey>,
                                buckets: Buckets)
    requires width >= 1
  {
    && (forall j :: Summarizes(Entry(buckets, j, q.metric), RollupCell(log, q, width, c, done, j)))
    && OnlyMetric(buckets, q.metric)
  }

  /** One turn of the loop over rollup rows. */
  method PlaceRollup(ghost w: World, q: Query, width: int, c: Resolution, row: map<string, Value>, k: RollupKey,
                     ghost done: set<RollupKey>, buckets: Buckets, index: int)
    returns (r: Buckets)
    requires width >= 1 && k in w.db.rollups && row == w.db.rollups[k]
    requires HitExact(w, q, k) && k.resolution == c && k !in done
    requires index == Div(k.ts as real - q.start, width)
    requires RollupBuckets(w.log, q, width, c, done, buckets)
    ensures RollupBuckets(w.log, q, width, c, done + {k}, r)
    ensures r.Keys == buckets.Keys + {index}
  {
    var item := Contribution(row, q.metric, true).value;
    r := Put(buckets, index, q.metric, item);
    forall j
      ensures Summarizes(Entry(r, j, q.metric), RollupCell(w.log, q, width, c, done + {k}, j))
    {
      RollupPlaced(w, q, width, c, done, k, Entry(buckets, j, q.metric), j);
    }
  }

  /** The loop over rollup rows. */
  method PlaceRollups(ghost w: World, q: Query, rollups: map<RollupKey, map<string, Value>>, width: int, c: Resolution,
                      rows: seq<RollupKey>)
    returns (buckets: Buckets, unknown: set<int>, covered: set<int>, ghost done: set<RollupKey>)
    requires width >= 1 && rollups == w.db.rollups
    requires forall n :: 0 <= n < |rows| ==> rows[n] in rollups && rows[n].resolution == c && HitExact(w, q, rows[n])
    requires forall i, j :: 0 <= i < j < |rows| ==> rows[i] != rows[j]
    ensures forall k :: k in done <==> k in rows
    ensures RollupBuckets(w.log, q, width, c, done, buckets)
    ensures unknown == buckets.Keys
    ensures covered == set k | k in done :: k.ts
  {
    buckets, unknown, covered, done := map[], {}, {}, {};
    for n := 0 to |rows|
      invariant forall k :: k in done <==> k in rows[..n]
      invariant RollupBuckets(w.log, q, width, c, done, buckets)
      invariant unknown == buckets.Keys
      invariant covered == set k | k in done :: k.ts
    {
      var k := rows[n];
      var index := Div(k.ts as real - q.start, width);
      buckets := PlaceRollup(w, q, width, c, rollups[k], k, done, buckets, index);
      unknown := unknown + {index};
      covered := covered + {k.ts};
      done := done + {k};
    }
  }

  // ---------------------------------------------------------------- raw rows and output

  lemma {:induction false} UnionStep(fixed: Readings, r: Readings, i: nat, x: real)
    requires i !in fixed && i !in r && fixed.Keys !! r.Keys
    ensures fixed.Keys !! (r + map[i := x]).Keys
    ensures (fixed + r) + map[i := x] == fixed + (r + map[i := x])
  {
  }

  lemma {:induction false} RawPlaced(log: seq<Sample>, q: Query, width: int, ids: set<nat>, s: Sample, fixed: Readings,
                                     before: Option<Agg>, j: int)
    requires width >= 1 && s.id < |log| && log[s.id] == s && s.id !in ids && s.id !in fixed && Valid(s, q.metric)
    requires fixed.Keys !! RawCell(log, q, width, ids, j).Keys
    requires Summarizes(before, fixed + RawCell(log, q, width, ids, j))
    ensures fixed.Keys !! RawCell(log, q, width, ids + {s.id}, j).Keys
    ensures Summarizes(if j == Div(s.ts - q.start, width) then Combine(before, Contribution(s.values, q.metric, false))
                       else before,
                       fixed + RawCell(log, q, width, ids + {s.id}, j))
  {
    RawCellStep(log, q, width, ids, s, j);
    if j == Div(s.ts - q.start, width) {
      ReadingAppended(fixed, RawCell(log, q, width, ids, j), s.id, s.values[q.metric].x, before);
    }
  }

  lemma {:induction false} ReadingAppended(fixed: Readings, r: Readings, i: nat, x: real, before: Option<Agg>)
    requires i !in fixed && i !in r && fixed.Keys !! r.Keys
    requires Summarizes(before, fixed + r)
    ensures fixed.Keys !! (r + map[i := x]).Keys
    ensures Summarizes(Combine(before, Some(Agg(x, 1, x, x))), fixed + (r + map[i := x]))
  {
    DescribesOne(i, x);
    UnionStep(fixed, r, i, x);
    SummarizesCombine(before, fixed + r, Some(Agg(x, 1, x, x)), map[i := x]);
  }

  /** Every bucket holds the exact aggregate of what the rollup rows `done` and the raw rows `ids` bring to it. */
  ghost predicate AllBuckets(log: seq<Sample>, q: Query, width: int, c: Resolution, done: set<RollupKey>, ids: set<nat>,
                             buckets: Buckets)
    requires width >= 1
  {
    && (forall j ::
          && RollupCell(log, q, width, c, done, j).Keys !! RawCell(log, q, width, ids, j).Keys
          && Summarizes(Entry(buckets, j, q.metric),
                        RollupCell(log, q, width, c, done, j) + RawCell(log, q, width, ids, j)))
    && OnlyMetric(buckets, q.metric)
  }

  ghost predicate LatestOf(log: seq<Sample>, r: Readings, last: Option<real>)
  {
    match last
    case None => r == map[]
    case Some(t) =>
      && (forall i :: i in r ==> i < |log| && log[i].ts <= t)
      && exists i :: i in r && i < |log| && log[i].ts == t
  }

  function Latest(latest: map<int, real>, j: int): Option<real>
  {
    if j in latest then Some(latest[j]) else None
  }

  ghost predicate AllLatest(log: seq<Sample>, q: Query, width: int, ids: set<nat>, latest: map<int, real>)
    requires width >= 1
  {
    forall j :: LatestOf(log, RawCell(log, q, width, ids, j), Latest(latest, j))
  }

  lemma {:induction false} LatestStep(log: seq<Sample>, r: Readings, last: Option<real>, s: Sample, x: real)
    requires s.id < |log| && log[s.id] == s && LatestOf(log, r, last)
    ensures LatestOf(log, r + map[s.id := x], Some(if last.Some? then Max(last.value, s.ts) else s.ts))
  {
    var u := r + map[s.id := x];
    assert s.id in u;
    if last.Some? {
      var i :| i in r && i < |log| && log[i].ts == last.value;
      assert i in u;
    }
  }

  /** One turn of the loop over raw rows. */
  method PlaceRawRow(ghost log: seq<Sample>, q: Query, width: int, ghost c: Resolution, ghost done: set<RollupKey>,
                     ghost ids: set<nat>, row: Sample, buckets: Buckets, latest: map<int, real>)
    returns (r: Buckets, l: map<int, real>)
    requires width >= 1 && row.id < |log| && log[row.id] == row && Valid(row, q.metric)
    requires row.id !in ids && KeyOf(row, c) !in done
    requires AllBuckets(log, q, width, c, done, ids, buckets)
    requires AllLatest(log, q, width, ids, latest)
    ensures AllBuckets(log, q, width, c, done, ids + {row.id}, r)
    ensures AllLatest(log, q, width, ids + {row.id}, l)
  {
    var index := Div(row.ts - q.start, width);
    var item := Item(row.values[q.metric], false).value;
    DescribesOne(row.id, item.sum);
    StoredAggregateReadsBack(item, map[row.id := item.sum]);
    r := Put(buckets, index, q.metric, item);
    l := latest[index := Max(if index in latest then latest[index] else row.ts, row.ts)];
    RawRowPlaced(log, q, width, c, done, ids, row, index, buckets, r);
    RawRowLatest(log, q, width, ids, row, index, latest, l);
  }

  lemma {:induction false} RawRowPlaced(log: seq<Sample>, q: Query, width: int, c: Resolution, done: set<RollupKey>,
                                        ids: set<nat>, row: Sample, index: int, buckets: Buckets, r: Buckets)
    requires width >= 1 && row.id < |log| && log[row.id] == row && Valid(row, q.metric)
    requires row.id !in ids && KeyOf(row, c) !in done && index == Div(row.ts - q.start, width)
    requires AllBuckets(log, q, width, c, done, ids, buckets) && OnlyMetric(r, q.metric)
    requires forall j :: Entry(r, j, q.metric)
                         == if j == index then Combine(Entry(buckets, j, q.metric), Contribution(row.values, q.metric, false))
                            else Entry(buckets, j, q.metric)
    ensures AllBuckets(log, q, width, c, done, ids + {row.id}, r)
  {
    forall j
      ensures RollupCell(log, q, width, c, done, j).Keys !! RawCell(log, q, width, ids + {row.id}, j).Keys
      ensures Summarizes(Entry(r, j, q.metric),
                         RollupCell(log, q, width, c, done, j) + RawCell(log, q, width, ids + {row.id}, j))
    {
      RawPlaced(log, q, width, ids, row, RollupCell(log, q, width, c, done, j), Entry(buckets, j, q.metric), j);
    }
  }

  lemma {:induction false} RawRowLatest(log: seq<Sample>, q: Query, width: int, ids: set<nat>, row: Sample, index: int,
                                        latest: map<int, real>, l: map<int, real>)
    requires width >= 1 && row.id < |log| && log[row.id] == row && Valid(row, q.metric)
    requires row.id !in ids && index == Div(row.ts - q.start, width) && AllLatest(log, q, width, ids, latest)
    requires l == latest[index := if index in latest then Max(latest[index], row.ts) else row.ts]
    ensures AllLatest(log, q, width, ids + {row.id}, l)
  {
    forall j
      ensures LatestOf(log, RawCell(log, q, width, ids + {row.id}, j), Latest(l, j))
    {
      RawCellStep(log, q, width, ids, row, j);
      if j == index {
        LatestStep(log, RawCell(log, q, width, ids, j), Latest(latest, j), row, row.values[q.metric].x);
      }
    }
  }

  /** The raw rows that no rollup row of the answer covers. */
  ghost function Uncovered(rows: seq<Sample>, c: Resolution, done: set<RollupKey>): set<nat>
  {
    set s | s in rows && KeyOf(s, c) !in done :: s.id
  }

  /** The loop over raw rows. */
  method PlaceRaw(ghost log: seq<Sample>, q: Query, width: int, c: Resolution, ghost done: set<RollupKey>,
                  covered: set<int>, rows: seq<Sample>, placed: Buckets)
    returns (buckets: Buckets, latest: map<int, real>)
    requires width >= 1 && FromLog(rows, log)
    requires forall s :: s in rows ==> RawHit(q, s)
    requires forall k :: k in done ==> k.device == q.device && k.source == q.source && k.resolution == c
    requires covered == set k | k in done :: k.ts
    requires RollupBuckets(log, q, width, c, done, placed)
    ensures AllBuckets(log, q, width, c, done, Uncovered(rows, c, done), buckets)
    ensures AllLatest(log, q, width, Uncovered(rows, c, done), latest)
  {
    buckets, latest := placed, map[];
    ghost var ids: set<nat> := {};
    forall j
      ensures RollupCell(log, q, width, c, done, j) + RawCell(log, q, width, ids, j) == RollupCell(log, q, width, c, done, j)
    {
    }
    for n := 0 to |rows|
      invariant ids == Uncovered(rows[..n], c, done)
      invariant AllBuckets(log, q, width, c, done, ids, buckets)
      invariant AllLatest(log, q, width, ids, latest)
    {
      var row := rows[n];
      assert row in rows;
      UncoveredStep(rows, n, c, done);
      SkipsCovered(q, c, done, covered, row);
      if Bucket(row.ts, c) !in covered {
        buckets, latest := PlaceRawRow(log, q, width, c, done, ids, row, buckets, latest);
        ids := ids + {row.id};
      }
    }
    assert rows[..|rows|] == rows;
  }

  lemma {:induction false} UncoveredStep(rows: seq<Sample>, n: nat, c: Resolution, done: set<RollupKey>)
    requires n < |rows| && Increasing(rows)
    ensures rows[n].id !in Uncovered(rows[..n], c, done)
    ensures Uncovered(rows[..n + 1], c, done)
            == Uncovered(rows[..n], c, done) + if KeyOf(rows[n], c) in done then {} else {rows[n].id}
  {
    assert rows[..n + 1] == rows[..n] + [rows[n]];
  }

  /** Comparing bucket numbers is comparing rollup keys. */
  lemma {:induction false} SkipsCovered(q: Query, c: Resolution, done: set<RollupKey>, covered: set<int>, s: Sample)
    requires RawHit(q, s)
    requires forall k :: k in done ==> k.device == q.device && k.source == q.source && k.resolution == c
    requires covered == set k | k in done :: k.ts
    ensures Bucket(s.ts, c) in covered <==> KeyOf(s, c) in done
  {
  }

  /** The rollup resolution and rows the loops work with, and the raw rows. */
  ghost predicate Selected(w: World, q: Query, c: Resolution, done: set<RollupKey>, rows: seq<Sample>)
  {
    && (forall s :: s in rows <==> s in w.db.samples && RawHit(q, s))
    && (Chosen(w.db, q).Some? ==> c == Chosen(w.db, q).value && done == Hits(w.db, q, c))
    && (Chosen(w.db, q).None? ==> done == {})
  }

  lemma {:induction false} ShownSplits(w: World, q: Query, c: Resolution, done: set<RollupKey>, rows: seq<Sample>,
                                       i: nat)
    requires LogInv(w) && Selected(w, q, c, done, rows) && i < |w.log|
    ensures i in Uncovered(rows, c, done) <==> Direct(w.db, q, w.log[i])
    ensures ViaRollup(w.db, q, w.log[i]) <==> Valid(w.log[i], q.metric) && KeyOf(w.log[i], c) in done
  {
    assert w.log[i].id == i;
    if i in Uncovered(rows, c, done) {
      var s :| s in rows && KeyOf(s, c) !in done && s.id == i;
      assert s == w.log[i];
    }
  }

  lemma {:induction false} RollupCellMember(w: World, q: Query, c: Resolution, done: set<RollupKey>, rows: seq<Sample>,
                                            j: int, i: nat)
    requires LogInv(w) && Selected(w, q, c, done, rows) && q.maxPoints >= 1 && i < |w.log|
    ensures i in RollupCell(w.log, q, Width(q, Chosen(w.db, q)), c, done, j)
            <==> ViaRollup(w.db, q, w.log[i]) && Place(w.db, q, w.log[i]) == j
  {
    ShownSplits(w, q, c, done, rows, i);
  }

  lemma {:induction false} RawCellMember(w: World, q: Query, c: Resolution, done: set<RollupKey>, rows: seq<Sample>,
                                         j: int, i: nat)
    requires LogInv(w) && Selected(w, q, c, done, rows) && q.maxPoints >= 1 && i < |w.log|
    ensures i in RawCell(w.log, q, Width(q, Chosen(w.db, q)), Uncovered(rows, c, done), j)
            <==> Direct(w.db, q, w.log[i]) && Place(w.db, q, w.log[i]) == j
  {
    ShownSplits(w, q, c, done, rows, i);
  }

  lemma {:induction false} CellMember(w: World, q: Query, c: Resolution, done: set<RollupKey>, rows: seq<Sample>,
                                      j: int, i: nat)
    requires LogInv(w) && Selected(w, q, c, done, rows) && q.maxPoints >= 1 && i < |w.log|
    ensures var width := Width(q, Chosen(w.db, q));
            && (i in RollupCell(w.log, q, width, c, done, j) <==> i in Cell(w, q, j) && ViaRollup(w.db, q, w.log[i]))
            && (i in RawCell(w.log, q, width, Uncovered(rows, c, done), j)
                <==> i in Cell(w, q, j) && Direct(w.db, q, w.log[i]))
            && (i in Cell(w, q, j) ==> ViaRollup(w.db, q, w.log[i]) || Direct(w.db, q, w.log[i]))
  {
    RollupCellMember(w, q, c, done, rows, j, i);
    RawCellMember(w, q, c, done, rows, j, i);
  }

  ghost predicate ReadingsAreLogged(log: seq<Sample>, metric: string, r: Readings)
  {
    forall i :: i in r ==> i < |log| && metric in log[i].values && log[i].values[metric].Num?
                           && r[i] == log[i].values[metric].x
  }

  lemma {:induction false} EqualReadings(log: seq<Sample>, metric: string, r: Readings, s: Readings)
    requires ReadingsAreLogged(log, metric, r) && ReadingsAreLogged(log, metric, s)
    requires forall i: nat :: i < |log| ==> (i in r <==> i in s)
    ensures r == s
  {
  }

  /** The cell of a point is what the two loops bring to it. */
  lemma {:induction false} CellSplits(w: World, q: Query, c: Resolution, done: set<RollupKey>, rows: seq<Sample>,
                                      j: int)
    requires LogInv(w) && Selected(w, q, c, done, rows) && q.maxPoints >= 1
    ensures var width := Width(q, Chosen(w.db, q));
            && Cell(w, q, j) == RollupCell(w.log, q, width, c, done, j) + RawCell(w.log, q, width, Uncovered(rows, c, done), j)
            && (forall i :: i in RollupCell(w.log, q, width, c, done, j) ==> ViaRollup(w.db, q, w.log[i]))
            && (forall i :: i in RawCell(w.log, q, width, Uncovered(rows, c, done), j) ==> Direct(w.db, q, w.log[i]))
  {
    var width := Width(q, Chosen(w.db, q));
    var a, b := RollupCell(w.log, q, width, c, done, j), RawCell(w.log, q, width, Uncovered(rows, c, done), j);
    forall i: nat | i < |w.log|
      ensures i in Cell(w, q, j) <==> i in a + b
      ensures i in a ==> ViaRollup(w.db, q, w.log[i])
      ensures i in b ==> Direct(w.db, q, w.log[i])
    {
      CellMember(w, q, c, done, rows, j, i);
    }
    EqualReadings(w.log, q.metric, Cell(w, q, j), a + b);
  }

  lemma {:induction false} WidthSuffices(q: Query, c: Option<Resolution>)
    requires q.maxPoints >= 1
    ensures (q.end - q.start) / q.maxPoints as real <= Width(q, c) as real
  {
  }

  lemma {:induction false} PlacedInRange(db: Store, q: Query, s: Sample)
    requires ViaRollup(db, q, s) || Direct(db, q, s)
    ensures q.start <= PlacedAt(db, q, s) <= q.end
  {
  }

  lemma {:induction false} PlaceNumber(db: Store, q: Query, s: Sample)
    requires q.maxPoints >= 1 && (ViaRollup(db, q, s) || Direct(db, q, s))
    ensures 0 <= Place(db, q, s) <= q.maxPoints
  {
    PlacedInRange(db, q, s);
    WidthSuffices(q, Chosen(db, q));
    CellCount(PlacedAt(db, q, s) - q.start, q.end - q.start, q.maxPoints, Width(q, Chosen(db, q)));
  }

  /** A point carries a number from 0 to `max_points`. */
  lemma {:induction false} CellNumbers(w: World, q: Query, j: int)
    requires q.maxPoints >= 1
    ensures Cell(w, q, j) != map[] ==> 0 <= j <= q.maxPoints
  {
    if Cell(w, q, j) != map[] {
      var i :| i in Cell(w, q, j);
      PlaceNumber(w.db, q, w.log[i]);
    }
  }

  /** The point of a bucket. */
  function MakePoint(q: Query, width: int, j: int, a: Agg, last: Option<real>): Point
    requires a.count != 0
  {
    Point(q.start + (j * width) as real, a.sum / a.count as real, a.min, a.max, a.count, width, last)
  }

  lemma {:induction false} PointFromAgg(w: World, q: Query, j: int, a: Agg, last: Option<real>)
    requires q.maxPoints >= 1 && Describes(a, Cell(w, q, j)) && LastOk(w, q, j, last)
    ensures a.count > 0 && PointOk(w, q, j, MakePoint(q, Width(q, Chosen(w.db, q)), j, a, last))
  {
    MeanWithinRange(a, Cell(w, q, j));
  }

  lemma {:induction false} PointFromBucket(w: World, q: Query, buckets: Buckets, unknown: set<int>, latest: map<int,
                                           real>, j: int)
    requires q.maxPoints >= 1 && j in buckets && BucketOk(w, q, buckets, unknown, latest, j)
    ensures q.metric in buckets[j] && buckets[j][q.metric].count > 0
    ensures PointOk(w, q, j, MakePoint(q, Width(q, Chosen(w.db, q)), j, buckets[j][q.metric], LastSample(unknown, latest, j)))
  {
    PointFromAgg(w, q, j, buckets[j][q.metric], LastSample(unknown, latest, j));
  }

  lemma {:induction false} EntryCorrect(w: World, q: Query, c: Resolution, done: set<RollupKey>, rows: seq<Sample>,
                                        buckets: Buckets, j: int)
    requires LogInv(w) && q.maxPoints >= 1 && Selected(w, q, c, done, rows)
    requires AllBuckets(w.log, q, Width(q, Chosen(w.db, q)), c, done, Uncovered(rows, c, done), buckets)
    ensures Summarizes(Entry(buckets, j, q.metric), Cell(w, q, j))
    ensures j in buckets <==> Entry(buckets, j, q.metric).Some?
  {
    CellSplits(w, q, c, done, rows, j);
  }

  /** The bucket's entry and last sample time are those of its cell. */
  ghost predicate BucketOk(w: World, q: Query, buckets: Buckets, unknown: set<int>, latest: map<int, real>, j: int)
    requires q.maxPoints >= 1
  {
    && Summarizes(Entry(buckets, j, q.metric), Cell(w, q, j))
    && (j in buckets <==> Entry(buckets, j, q.metric).Some?)
    && (j in buckets ==> LastOk(w, q, j, LastSample(unknown, latest, j)))
  }

  function LastSample(unknown: set<int>, latest: map<int, real>, j: int): Option<real>
  {
    if j in unknown then None else Latest(latest, j)
  }

  /** What the two loops left behind, read off for one bucket. */
  lemma {:induction false} PointCorrect(w: World, q: Query, c: Resolution, done: set<RollupKey>, rows: seq<Sample>,
                                        placed: Buckets, buckets: Buckets, latest: map<int, real>, j: int)
    requires LogInv(w) && q.maxPoints >= 1 && Selected(w, q, c, done, rows)
    requires var width := Width(q, Chosen(w.db, q));
             && RollupBuckets(w.log, q, width, c, done, placed)
             && AllBuckets(w.log, q, width, c, done, Uncovered(rows, c, done), buckets)
             && AllLatest(w.log, q, width, Uncovered(rows, c, done), latest)
    ensures BucketOk(w, q, buckets, placed.Keys, latest, j)
  {
    EntryCorrect(w, q, c, done, rows, buckets, j);
    if Cell(w, q, j) != map[] {
      LastCorrect(w, q, c, done, rows, placed, latest, j);
    }
  }

  lemma {:induction false} LastCorrect(w: World, q: Query, c: Resolution, done: set<RollupKey>, rows: seq<Sample>,
                                       placed: Buckets, latest: map<int, real>, j: int)
    requires LogInv(w) && q.maxPoints >= 1 && Selected(w, q, c, done, rows) && Cell(w, q, j) != map[]
    requires RollupBuckets(w.log, q, Width(q, Chosen(w.db, q)), c, done, placed)
    requires AllLatest(w.log, q, Width(q, Chosen(w.db, q)), Uncovered(rows, c, done), latest)
    ensures LastOk(w, q, j, LastSample(placed.Keys, latest, j))
  {
    var width := Width(q, Chosen(w.db, q));
    var a, b := RollupCell(w.log, q, width, c, done, j), RawCell(w.log, q, width, Uncovered(rows, c, done), j);
    CellSplits(w, q, c, done, rows, j);
    assert Summarizes(Entry(placed, j, q.metric), a);
    assert LatestOf(w.log, b, Latest(latest, j));
    if j in placed {
      LastWithheld(w, q, j, a);
    } else {
      LastOfRaw(w, q, j, a, b, latest[j]);
    }
  }

  lemma {:induction false} LastWithheld(w: World, q: Query, j: int, a: Readings)
    requires q.maxPoints >= 1 && a != map[]
    requires forall i :: i in a ==> i in Cell(w, q, j) && ViaRollup(w.db, q, w.log[i])
    ensures LastOk(w, q, j, None)
  {
    var i :| i in a;
    assert i in Cell(w, q, j) && ViaRollup(w.db, q, w.log[i]);
  }

  lemma {:induction false} LastOfRaw(w: World, q: Query, j: int, a: Readings, b: Readings, t: real)
    requires q.maxPoints >= 1 && a == map[] && Cell(w, q, j) == a + b
    requires LatestOf(w.log, b, Some(t)) && forall i :: i in b ==> i in Cell(w, q, j) && Direct(w.db, q, w.log[i])
    ensures LastOk(w, q, j, Some(t))
  {
    assert Cell(w, q, j) == b;
    var i :| i in b && i < |w.log| && w.log[i].ts == t;
    assert i in Cell(w, q, j);
  }

  /** The two loops of `history`. */
  method Plot(db: Store, q: Query, ghost w: World)
    returns (width: int, buckets: Buckets, unknown: set<int>, latest: map<int, real>)
    requires Inv(w) && w.db == db && q.maxPoints >= 1
    ensures width == Width(q, Chosen(db, q))
    ensures forall j :: BucketOk(w, q, buckets, unknown, latest, j)
  {
    var raw := ValidRaw(db.samples, q);
    AnyRaw(db, q, raw);
    var c, rows := ChooseRollups(db, q, raw);
    width := Width(q, c);
    var res: Resolution := if c.Some? then c.value else 60;
    RowsExact(w, q, res, c, rows);
    var placed, unknownLatest, covered, done := PlaceRollups(w, q, db.rollups, width, res, rows);
    SelectedDone(w, q, res, c, rows, done, raw);
    unknown := unknownLatest;
    buckets, latest := PlaceRaw(w.log, q, width, res, done, covered, raw, placed);
    forall j
      ensures BucketOk(w, q, buckets, unknown, latest, j)
    {
      PointCorrect(w, q, res, done, raw, placed, buckets, latest, j);
    }
  }

  lemma {:induction false} AnyRaw(db: Store, q: Query, raw: seq<Sample>)
    requires forall s :: s in raw <==> s in db.samples && RawHit(q, s)
    ensures raw != [] <==> HasRaw(db, q)
  {
    if raw != [] {
      assert raw[0] in raw;
    }
  }

  lemma {:induction false} RowsExact(w: World, q: Query, res: Resolution, c: Option<Resolution>, rows: seq<RollupKey>)
    requires Inv(w) && (c.Some? ==> res == c.value)
    requires forall k :: k in rows <==> c.Some? && k in Hits(w.db, q, c.value)
    ensures forall n :: 0 <= n < |rows| ==>
              rows[n] in w.db.rollups && rows[n].resolution == res && HitExact(w, q, rows[n])
  {
    HitsExact(w, q, res);
    forall n | 0 <= n < |rows|
      ensures rows[n] in Hits(w.db, q, res)
    {
      assert rows[n] in rows;
    }
  }

  lemma {:induction false} SelectedDone(w: World, q: Query, res: Resolution, c: Option<Resolution>,
                                        rows: seq<RollupKey>, done: set<RollupKey>, raw: seq<Sample>)
    requires c == Chosen(w.db, q) && (c.Some? ==> res == c.value)
    requires forall k :: k in rows <==> c.Some? && k in Hits(w.db, q, c.value)
    requires forall k :: k in done <==> k in rows
    requires forall s :: s in raw <==> s in w.db.samples && RawHit(q, s)
    ensures Selected(w, q, res, done, raw)
    ensures forall k :: k in done ==> k.device == q.device && k.source == q.source && k.resolution == res
  {
    if c.Some? {
      assert done == Hits(w.db, q, res);
    } else {
      assert done == {};
    }
  }

  /** `history`: the points of the answer, each the exact aggregate of its cell, in order of time; the ghost result
      numbers their cells. */
  method Answer(db: Store, q: Query, ghost w: World) returns (points: seq<Point>, ghost cells: seq<int>)
    requires Inv(w) && w.db == db && q.maxPoints >= 1
    ensures |points| <= q.maxPoints + 1
    ensures forall m, n :: 0 <= m < n < |points| ==> points[m].ts < points[n].ts
    ensures |cells| == |points| && PointsOk(w, q, cells, points)
    ensures forall m, n :: 0 <= m < n < |cells| ==> cells[m] < cells[n]
    ensures forall j :: j in cells <==> Cell(w, q, j) != map[]
    ensures Complete(w, q, cells)
    ensures forall n :: 0 <= n < |points| ==> LeastWidth(w, q, points[n].bucketSeconds)
    ensures forall n, i :: 0 <= n < |points| && i in Cell(w, q, cells[n]) ==> Spans(w, q, points[n], i)
    ensures forall n :: 0 <= n < |points| ==> Dated(w, q, cells[n], points[n].lastSampleTs)
  {
    var width, buckets, unknown, latest := Plot(db, q, w);
    var order := SortedKeys(buckets.Keys);
    cells := order;
    forall n | 0 <= n < |order|
      ensures order[n] in buckets
    {
      assert order[n] in order;
    }
    points := Emit(w, q, width, buckets, unknown, latest, order);
    forall j
      ensures j in cells <==> Cell(w, q, j) != map[]
    {
      assert BucketOk(w, q, buckets, unknown, latest, j);
    }
    PointsOrdered(w, q, order, points);
    AnswerComplete(w, q, cells);
    PointsSpan(w, q, cells, points);
  }

  /** The point's start and width, apart from everything else it says. */
  ghost predicate Framed(w: World, q: Query, j: int, p: Point)
    requires q.maxPoints >= 1
  {
    p.bucketSeconds == Width(q, Chosen(w.db, q)) && p.ts == q.start + (j * p.bucketSeconds) as real
  }

  lemma {:induction false} FramedSpans(w: World, q: Query, j: int, p: Point, i: nat)
    requires Inv(w) && q.maxPoints >= 1 && Framed(w, q, j, p) && i in Cell(w, q, j)
    ensures Spans(w, q, p, i)
  {
    InCell(w, q, j, i);
    PlaceInterval(w.db, q, w.log[i], j, p.bucketSeconds, p.ts);
    PlacedSpans(w, q, p, i);
  }

  lemma {:induction false} PointsSpan(w: World, q: Query, cells: seq<int>, points: seq<Point>)
    requires Inv(w) && q.maxPoints >= 1 && |cells| == |points| && PointsOk(w, q, cells, points)
    ensures forall n :: 0 <= n < |points| ==> LeastWidth(w, q, points[n].bucketSeconds)
    ensures forall n, i :: 0 <= n < |points| && i in Cell(w, q, cells[n]) ==> Spans(w, q, points[n], i)
    ensures forall n :: 0 <= n < |points| ==> Dated(w, q, cells[n], points[n].lastSampleTs)
  {
    WidthIsLeast(w, q);
    forall n | 0 <= n < |points|
      ensures Framed(w, q, cells[n], points[n]) && LastOk(w, q, cells[n], points[n].lastSampleTs)
    {
      assert PointCheck(w, q)(cells[n], points[n]);
    }
    forall n, i | 0 <= n < |points| && i in Cell(w, q, cells[n])
      ensures Spans(w, q, points[n], i)
    {
      FramedSpans(w, q, cells[n], points[n], i);
    }
    forall n | 0 <= n < |points|
      ensures Dated(w, q, cells[n], points[n].lastSampleTs)
    {
      LastIsDated(w, q, cells[n], points[n].lastSampleTs);
    }
  }

  /** The list comprehension that `history` returns. */
  method Emit(ghost w: World, q: Query, width: int, buckets: Buckets, unknown: set<int>, latest: map<int, real>,
              order: seq<int>)
    returns (points: seq<Point>)
    requires q.maxPoints >= 1 && width == Width(q, Chosen(w.db, q))
    requires forall n :: 0 <= n < |order| ==> order[n] in buckets && BucketOk(w, q, buckets, unknown, latest, order[n])
    ensures |points| == |order| && PointsOk(w, q, order, points)
  {
    points := [];
    for n := 0 to |order|
      invariant |points| == n && PointsOk(w, q, order, points)
    {
      var j := order[n];
      PointFromBucket(w, q, buckets, unknown, latest, j);
      var point := MakePoint(q, width, j, buckets[j][q.metric], LastSample(unknown, latest, j));
      PairAppended(PointCheck(w, q), order, points, point);
      points := points + [point];
    }
  }

  ghost function PointCheck(w: World, q: Query): (int, Point) -> bool
    requires q.maxPoints >= 1
  {
    (j, p) => PointOk(w, q, j, p)
  }

  ghost predicate AllPairs<A, B>(check: (A, B) -> bool, xs: seq<A>, ys: seq<B>)
    requires |ys| <= |xs|
  {
    forall n :: 0 <= n < |ys| ==> check(xs[n], ys[n])
  }

  ghost predicate PointsOk(w: World, q: Query, cells: seq<int>, points: seq<Point>)
    requires q.maxPoints >= 1 && |points| <= |cells|
  {
    AllPairs(PointCheck(w, q), cells, points)
  }

  lemma {:induction false} PairAppended<A, B>(check: (A, B) -> bool, xs: seq<A>, ys: seq<B>, y: B)
    requires |ys| < |xs| && AllPairs(check, xs, ys) && check(xs[|ys|], y)
    ensures AllPairs(check, xs, ys + [y])
  {
  }

  lemma {:induction false} PointsOrdered(w: World, q: Query, order: seq<int>, points: seq<Point>)
    requires q.maxPoints >= 1 && |order| == |points|
    requires forall m, n :: 0 <= m < n < |order| ==> order[m] < order[n]
    requires forall j :: j in order ==> Cell(w, q, j) != map[]
    requires PointsOk(w, q, order, points)
    ensures |points| <= q.maxPoints + 1
    ensures forall m, n :: 0 <= m < n < |points| ==> points[m].ts < points[n].ts
  {
    forall n | 0 <= n < |order|
      ensures 0 <= order[n] <= q.maxPoints
    {
      assert order[n] in order;
      CellNumbers(w, q, order[n]);
    }
    IncreasingBounded(order, q.maxPoints);
    forall m, n | 0 <= m < n < |points|
      ensures points[m].ts < points[n].ts
    {
      assert PointOk(w, q, order[m], points[m]) && PointOk(w, q, order[n], points[n]);
      ScaleOrder(order[m], order[n], Width(q, Chosen(w.db, q)));
    }
  }
}
