/** The transactions of sparkscope/history.py, step by step, against the functions of Telemetry. */
module TelemetryEngine {
  import opened Aggregates
  import opened Telemetry

  /** The insert loop of `summarize`: the new table, or nothing stored when the unique constraint is violated. */
  method InsertRows<K(==), V>(table: map<K, V>, rows: map<K, V>) returns (stored: bool, result: map<K, V>)
    ensures stored <==> rows.Keys * table.Keys == {}
    ensures stored ==> result == table + rows
  {
    result := table;
    var todo := rows.Keys;
    while todo != {}
      invariant forall k :: k in todo ==> k in rows
      invariant forall k :: k in rows && k in table ==> k in todo
      invariant forall k :: k in result <==> k in table || (k in rows && k !in todo)
      invariant forall k :: k in table ==> result[k] == table[k]
      invariant forall k :: k in rows && k !in todo ==> result[k] == rows[k]
      decreases todo
    {
      var bucket :| bucket in todo;
      if bucket in result {
        assert bucket in rows.Keys * table.Keys;
        return false, result;
      }
      result, todo := result[bucket := rows[bucket]], todo - {bucket};
    }
    stored := true;
  }

  class Database {
    var samples: seq<Sample>
    var nextId: nat
    var rollups: map<RollupKey, map<string, Value>>
    var cursors: map<Resolution, int>

    ghost function View(): Store
      reads this
    {
      Store(samples, nextId, rollups, cursors)
    }

    constructor ()
      ensures View() == EmptyStore
    {
      samples, nextId, rollups, cursors := [], 0, map[], map[];
    }

    /** `session.add(Sample(...))`. */
    method Ingest(device: string, source: string, ts: real, values: map<string, Value>)
      modifies this
      ensures View() == Ingested(old(View()), device, source, ts, values)
    {
      samples := samples + [Sample(nextId, device, source, ts, values)];
      nextId := nextId + 1;
    }

    /** `summarize`: one transaction, which rolls back when an insert violates the unique constraint. */
    method Summarize(res: Resolution, now: real)
      modifies this
      ensures View() == Summarized(old(View()), res, now)
    {
      ghost var db := View();
      var end := Bucket(now, res);
      if samples == [] {
        return;
      }
      var earliest := Earliest(samples);
      var start := Bucket(if res in cursors then cursors[res] as real else earliest, res);
      var stop := start + Chunk(res);
      if end < stop {
        stop := end;
      }
      if stop <= start {
        return;
      }
      assert start == Start(db, res) && stop == Stop(db, res, now);
      var groups := GroupRows(InRange(samples, start as real, stop as real), res);
      var stored, table := InsertRows(rollups, EncodeGroups(groups));
      assert Conflicts(db, res, now) <==> !stored;
      if stored {
        rollups := table;
        cursors := cursors[res := stop];
      }
    }

    /** The accumulation loop of `summarize`. */
    static method GroupRows(rows: seq<Sample>, res: Resolution) returns (groups: map<RollupKey, map<string, Agg>>)
      ensures groups == Grouped(rows, res)
    {
      groups := map[];
      for i := 0 to |rows|
        invariant groups == Grouped(rows[..i], res)
      {
        var bucket := KeyOf(rows[i], res);
        var entry := Accumulate(if bucket in groups then groups[bucket] else map[], rows[i].values, false);
        groups := groups[bucket := entry];
        assert rows[..i + 1][..i] == rows[..i];
      }
      assert rows[..|rows|] == rows;
    }

    /** The retention transaction of `maintain`. */
    method Retain(now: real, policy: Policy)
      modifies this
      ensures View() == Retained(old(View()), now, policy)
      ensures forall s :: s in samples <==>
                (&& s in old(samples)
                 && (s.ts >= now - (policy.rawHours * 3600) as real
                     || (60 in cursors && 900 in cursors && (s.ts >= cursors[60] as real || s.ts >= cursors[900] as real))
                     || (!(60 in cursors && 900 in cursors) && s.ts >= 0.0)))
      ensures forall k :: k in rollups <==>
                (&& k in old(rollups)
                 && k.ts as real
                    >= now - ((if k.resolution == 60 then policy.minuteDays else policy.quarterDays) * 86400) as real)
    {
      RetentionFollowsPolicy(View(), now, policy);
      var safe := 0;
      if 60 in cursors && 900 in cursors {
        safe := if cursors[60] < cursors[900] then cursors[60] else cursors[900];
      }
      samples := Since(samples, Min(now - (policy.rawHours * 3600) as real, safe as real));
      rollups := map k | k in rollups && !Outdated(k, now, policy) :: rollups[k];
    }

    /** `maintain`: three transactions. */
    method Maintain(now: real, policy: Policy)
      modifies this
      ensures View() == Retained(Summarized(Summarized(old(View()), 60, now), 900, now), now, policy)
    {
      Summarize(60, now);
      Summarize(900, now);
      Retain(now, policy);
    }
  }
}
