/** Minute and quarter-hour rollups tell the same story. */
module CrossResolution {
  import opened Options
  import opened Aggregates
  import opened Telemetry

  /** The stored rows `keys`, merged by `accumulate(..., summarized=True)` in the order given. */
  function MergedRows(rows: map<RollupKey, map<string, Value>>, keys: seq<RollupKey>): map<string, Agg>
    requires forall k :: k in keys ==> k in rows
  {
    if keys == [] then map[]
    else
      Accumulated(MergedRows(rows, keys[..|keys| - 1]), rows[keys[|keys| - 1]], true)
  }

  /** The minute rows inside the quarter hour that starts at `b`, each once, in any order. */
  ghost predicate MinutesOf(w: World, quarter: RollupKey, keys: seq<RollupKey>)
  {
    && (forall i, j :: 0 <= i < j < |keys| ==> keys[i] != keys[j])
    && forall k :: k in keys <==>
         && k in w.folded && k.resolution == 60 && k.device == quarter.device && k.source == quarter.source
         && quarter.ts <= k.ts < quarter.ts + 900
  }

  ghost function ReadingsIn(log: seq<Sample>, keys: set<RollupKey>, m: string): Readings
  {
    map i: nat | i < |log| && KeyOf(log[i], 60) in keys && Telemetry.Valid(log[i], m) :: log[i].values[m].x
  }

  ghost function KeySet(keys: seq<RollupKey>): set<RollupKey>
  {
    set k | k in keys
  }

  lemma {:induction false} ReadingsInStep(log: seq<Sample>, keys: set<RollupKey>, k: RollupKey, m: string)
    requires k.resolution == 60 && k !in keys
    ensures ReadingsIn(log, keys, m).Keys !! ReadingsOf(log, k, m).Keys
    ensures ReadingsIn(log, keys + {k}, m) == ReadingsIn(log, keys, m) + ReadingsOf(log, k, m)
  {
  }

  lemma {:induction false} MergedStep(w: World, front: seq<RollupKey>, last: RollupKey, m: string)
    requires Inv(w) && last in w.folded && last.resolution == 60 && last !in front
    requires forall k :: k in front ==> k in w.folded
    requires Summarizes(Get(MergedRows(w.folded, front), m), ReadingsIn(w.log, KeySet(front), m))
    ensures Summarizes(Get(MergedRows(w.folded, front + [last]), m), ReadingsIn(w.log, KeySet(front + [last]), m))
  {
    assert KeySet(front + [last]) == KeySet(front) + {last};
    assert (front + [last])[..|front|] == front;
    ReadingsInStep(w.log, KeySet(front), last, m);
    StoredRowExact(w, last, m);
    SummarizesCombine(Get(MergedRows(w.folded, front), m), ReadingsIn(w.log, KeySet(front), m),
                      Contribution(w.folded[last], m, true), ReadingsOf(w.log, last, m));
  }

  lemma {:induction false} MergedMeaning(w: World, keys: seq<RollupKey>, m: string)
    requires Inv(w)
    requires forall i, j :: 0 <= i < j < |keys| ==> keys[i] != keys[j]
    requires forall k :: k in keys ==> k in w.folded && k.resolution == 60
    ensures Summarizes(Get(MergedRows(w.folded, keys), m), ReadingsIn(w.log, KeySet(keys), m))
  {
    if keys != [] {
      var front, last := keys[..|keys| - 1], keys[|keys| - 1];
      assert keys == front + [last];
      assert last in keys;
      assert forall k :: k in front ==> k in keys;
      MergedMeaning(w, front, m);
      MergedStep(w, front, last, m);
    }
  }

  lemma {:induction false} StoredRowExact(w: World, k: RollupKey, m: string)
    requires Inv(w) && k in w.folded
    ensures Summarizes(Contribution(w.folded[k], m, true), ReadingsOf(w.log, k, m))
  {
    assert RowOk(w.log, w.db.cursors, k, w.folded[k]);
  }

  lemma {:induction false} MinutesCoverQuarter(w: World, quarter: RollupKey, keys: seq<RollupKey>, m: string)
    requires Inv(w) && MinutesOf(w, quarter, keys)
    requires quarter.resolution == 900 && Aligned(quarter.ts, 900)
    requires 60 in w.db.cursors && quarter.ts + 900 <= w.db.cursors[60]
    ensures ReadingsIn(w.log, KeySet(keys), m) == ReadingsOf(w.log, quarter, m)
  {
    forall i: nat | i < |w.log|
      ensures KeyOf(w.log[i], 60) in keys <==> KeyOf(w.log[i], 900) == quarter
    {
      var s := w.log[i];
      assert s in w.log;
      NestedBuckets(s.ts, quarter.ts);
      if KeyOf(s, 900) == quarter {
        assert Folded(w, s, 60);
      }
    }
  }

  lemma {:induction false} QuarterIsMinute(b: int)
    requires Aligned(b, 900)
    ensures Aligned(b, 60) && Aligned(b + 900, 900)
  {
    Multiples(b / 900 * 15);
    Multiples(b / 900 + 1);
  }

  lemma {:induction false} NestedBuckets(ts: real, b: int)
    requires Aligned(b, 900)
    ensures Bucket(ts, 900) == b <==> b <= Bucket(ts, 60) < b + 900
  {
    QuarterIsMinute(b);
    QuarterIsMinute(b + 900);
    AlignedSplits(b, ts, 60);
    AlignedSplits(b, ts, 900);
    var e := b + 900;
    AlignedSplits(e, ts, 60);
    AlignedSplits(e, ts, 900);
  }

  /** Both cursors have passed the quarter hour that starts at `quarter.ts`. */
  ghost predicate Passed(w: World, quarter: RollupKey)
  {
    && quarter.resolution == 900 && Aligned(quarter.ts, 900)
    && 60 in w.db.cursors && quarter.ts + 900 <= w.db.cursors[60]
    && 900 in w.db.cursors && quarter.ts + 900 <= w.db.cursors[900]
  }

  /** A quarter hour that was passed without a row held no readings. */
  lemma {:induction false} NoRowNoReadings(w: World, quarter: RollupKey, m: string)
    requires Inv(w) && Passed(w, quarter) && quarter !in w.folded
    ensures ReadingsOf(w.log, quarter, m) == map[]
  {
    forall i: nat | i < |w.log|
      ensures KeyOf(w.log[i], 900) != quarter
    {
      var s := w.log[i];
      assert s in w.log;
      assert s.ts < w.db.cursors[900] as real ==> Folded(w, s, 900);
    }
  }

  /** Once both cursors have passed a quarter hour, its minute rows, merged in any order, give the quarter-hour row: every
      metric, exactly; and no minute row has an entry for a metric when there is no quarter-hour row. */
  lemma {:induction false} ResolutionsAgree(w: World, quarter: RollupKey, keys: seq<RollupKey>, m: string)
    requires Inv(w) && MinutesOf(w, quarter, keys) && Passed(w, quarter)
    ensures Get(MergedRows(w.folded, keys), m)
            == if quarter in w.folded then Contribution(w.folded[quarter], m, true) else None
  {
    MergedMeaning(w, keys, m);
    MinutesCoverQuarter(w, quarter, keys, m);
    if quarter in w.folded {
      StoredRowExact(w, quarter, m);
      SummarizesUnique(Get(MergedRows(w.folded, keys), m), Contribution(w.folded[quarter], m, true),
                       ReadingsOf(w.log, quarter, m));
    } else {
      NoRowNoReadings(w, quarter, m);
    }
  }
}
