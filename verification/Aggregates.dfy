/** The aggregate dictionaries of sparkscope/history.py and what they mean for a set of readings. */
module Aggregates {
  import opened Options

  /** A JSON value as the aggregation code sees it. `Num` is a finite number that is not a boolean;
      `Other` is everything the filters reject outright: null, booleans, NaN, infinities, strings, lists. */
  datatype Value = Num(x: real) | Dict(fields: map<string, Value>) | Other

  /** One metric's `{"sum", "count", "min", "max"}` entry. */
  datatype Agg = Agg(sum: real, count: int, min: real, max: real)

  function Number(fields: map<string, Value>, key: string): Option<real>
  {
    if key in fields && fields[key].Num? then Some(fields[key].x) else None
  }

  /** The entry a value contributes, or nothing when the validity filter drops it. */
  function Item(v: Value, summarized: bool): Option<Agg>
  {
    if !summarized then
      if v.Num? then Some(Agg(v.x, 1, v.x, v.x)) else None
    else if !v.Dict? then None
    else
      match (Number(v.fields, "sum"), Number(v.fields, "count"), Number(v.fields, "min"), Number(v.fields, "max"))
      case (Some(sum), Some(count), Some(min), Some(max)) =>
        if count <= 0.0 || count.Floor as real != count || min > max then None
        else Some(Agg(sum, count.Floor, min, max))
      case _ => None
  }

  /** What the filter lets through, field by field: raw, any finite number; summarized, a dictionary with a numeric sum, a
      positive whole count and a numeric range that is not empty. */
  lemma {:induction false} FilterAdmits(v: Value)
    ensures Item(v, false).Some? <==> v.Num?
    ensures v.Num? ==> Item(v, false) == Some(Agg(v.x, 1, v.x, v.x))
    ensures Item(v, true).Some? <==>
              (&& v.Dict?
               && (forall key :: key in ["sum", "count", "min", "max"] ==> key in v.fields && v.fields[key].Num?)
               && v.fields["count"].x > 0.0 && v.fields["count"].x.Floor as real == v.fields["count"].x
               && v.fields["min"].x <= v.fields["max"].x)
    ensures Item(v, true).Some? ==>
              var a := Item(v, true).value;
              && v.fields["sum"] == Num(a.sum) && v.fields["count"] == Num(a.count as real)
              && v.fields["min"] == Num(a.min) && v.fields["max"] == Num(a.max)
  {
    assert forall key :: key in ["sum", "count", "min", "max"]
                         <==> key == "sum" || key == "count" || key == "min" || key == "max";
  }

  /** How an entry is written back to a JSON column. */
  function Encode(a: Agg): Value
  {
    Dict(map["sum" := Num(a.sum), "count" := Num(a.count as real), "min" := Num(a.min), "max" := Num(a.max)])
  }

  function EncodeAll(entries: map<string, Agg>): map<string, Value>
  {
    map m | m in entries :: Encode(entries[m])
  }

  function Get(entries: map<string, Agg>, metric: string): Option<Agg>
  {
    Lookup(entries, metric)
  }

  function Contribution(values: map<string, Value>, metric: string, summarized: bool): Option<Agg>
  {
    if metric in values then Item(values[metric], summarized) else None
  }

  function Min(a: real, b: real): real { if b < a then b else a }

  function Max(a: real, b: real): real { if b > a then b else a }

  function Merge(a: Agg, b: Agg): Agg
  {
    Agg(a.sum + b.sum, a.count + b.count, Min(a.min, b.min), Max(a.max, b.max))
  }

  function Combine(a: Option<Agg>, b: Option<Agg>): Option<Agg>
  {
    match (a, b)
    case (None, _) => b
    case (_, None) => a
    case (Some(x), Some(y)) => Some(Merge(x, y))
  }

  /** What `accumulate` leaves in its target. */
  function Accumulated(target: map<string, Agg>, values: map<string, Value>, summarized: bool): (r: map<string, Agg>)
    ensures forall m :: Get(r, m) == Combine(Get(target, m), Contribution(values, m, summarized))
  {
    map m | m in target.Keys + values.Keys && Combine(Get(target, m), Contribution(values, m, summarized)).Some?
      :: Combine(Get(target, m), Contribution(values, m, summarized)).value
  }

  /** `accumulate`: folds every valid value into the target, metric by metric in any order. */
  method Accumulate(target: map<string, Agg>, values: map<string, Value>, summarized: bool)
    returns (entries: map<string, Agg>)
    ensures entries == Accumulated(target, values, summarized)
  {
    entries := target;
    var todo := values.Keys;
    while todo != {}
      invariant todo <= values.Keys
      invariant forall m :: Get(entries, m)
                            == Combine(Get(target, m), if m in todo then None else Contribution(values, m, summarized))
      decreases todo
    {
      var metric :| metric in todo;
      todo := todo - {metric};
      var item := Item(values[metric], summarized);
      if item.None? {
        continue;
      }
      var entry := if metric in entries then entries[metric] else Agg(0.0, 0, item.value.min, item.value.max);
      entries := entries[metric := Agg(entry.sum + item.value.sum,
                                       entry.count + item.value.count,
                                       Min(entry.min, item.value.min),
                                       Max(entry.max, item.value.max))];
    }
    assert forall m :: Lookup(entries, m) == Get(entries, m);
    SameLookups(entries, Accumulated(target, values, summarized));
  }

  // ---------------------------------------------------------------- meaning

  /** A set of readings: reading identity to value. */
  type Readings = map<nat, real>

  ghost function Pick(keys: set<nat>): (i: nat)
    requires keys != {}
    ensures i in keys
  {
    var i :| i in keys; i
  }

  ghost function Sum(keys: set<nat>, r: Readings): real
    requires keys <= r.Keys
  {
    if keys == {} then 0.0
    else r[Pick(keys)] + Sum(keys - {Pick(keys)}, r)
  }

  ghost function Total(r: Readings): real
  {
    Sum(r.Keys, r)
  }

  /** `a` is the exact aggregate of the readings `r`, whatever order they were folded in. */
  ghost predicate Describes(a: Agg, r: Readings)
  {
    && r != map[]
    && a.sum == Total(r)
    && a.count == |r|
    && (forall i :: i in r ==> a.min <= r[i] <= a.max)
    && (exists i :: i in r && r[i] == a.min)
    && (exists i :: i in r && r[i] == a.max)
  }

  /** No entry for no readings, the exact aggregate otherwise. */
  ghost predicate Summarizes(o: Option<Agg>, r: Readings)
  {
    match o
    case None => r == map[]
    case Some(a) => Describes(a, r)
  }

  lemma {:induction false} SumAdd(keys: set<nat>, i: nat, r: Readings)
    requires keys + {i} <= r.Keys && i !in keys
    ensures Sum(keys + {i}, r) == Sum(keys, r) + r[i]
  {
    var all := keys + {i};
    var j := Pick(all);
    if j == i {
      assert all - {j} == keys;
    } else {
      var rest := keys - {j};
      assert all - {j} == rest + {i};
      SumAdd(rest, i, r);
      assert rest + {j} == keys;
      SumAdd(rest, j, r);
    }
  }

  lemma {:induction false} SumUnion(a: set<nat>, b: set<nat>, r: Readings)
    requires a + b <= r.Keys && a !! b
    ensures Sum(a + b, r) == Sum(a, r) + Sum(b, r)
    decreases b
  {
    if b == {} {
      assert a + b == a;
    } else {
      var i := Pick(b);
      var rest := b - {i};
      SumUnion(a, rest, r);
      assert a + b == a + rest + {i};
      SumAdd(a + rest, i, r);
    }
  }

  lemma {:induction false} SumCongruent(keys: set<nat>, r: Readings, s: Readings)
    requires keys <= r.Keys && keys <= s.Keys
    requires forall i :: i in keys ==> r[i] == s[i]
    ensures Sum(keys, r) == Sum(keys, s)
  {
    if keys != {} {
      SumCongruent(keys - {Pick(keys)}, r, s);
    }
  }

  lemma {:induction false} TotalUnion(r: Readings, s: Readings)
    requires r.Keys !! s.Keys
    ensures Total(r + s) == Total(r) + Total(s)
  {
    var u := r + s;
    assert u.Keys == r.Keys + s.Keys;
    SumUnion(r.Keys, s.Keys, u);
    SumCongruent(r.Keys, u, r);
    SumCongruent(s.Keys, u, s);
  }

  lemma {:induction false} DescribesOne(i: nat, x: real)
    ensures Describes(Agg(x, 1, x, x), map[i := x])
  {
    var r: Readings := map[i := x];
    assert r.Keys == {} + {i};
    SumAdd({}, i, r);
    assert i in r && r[i] == x;
  }

  /** Merging the aggregates of disjoint sets of readings gives the aggregate of their union. */
  lemma {:induction false} DescribesMerge(a: Agg, r: Readings, b: Agg, s: Readings)
    requires Describes(a, r) && Describes(b, s) && r.Keys !! s.Keys
    ensures Describes(Merge(a, b), r + s)
  {
    TotalUnion(r, s);
    var u := r + s;
    assert |u| == |r| + |s| by {
      assert u.Keys == r.Keys + s.Keys;
    }
    var c := Merge(a, b);
    var i :| i in r && r[i] == a.min;
    var j :| j in s && s[j] == b.min;
    assert u[i] == a.min && u[j] == b.min;
    assert u[i] == c.min || u[j] == c.min;
    var k :| k in r && r[k] == a.max;
    var l :| l in s && s[l] == b.max;
    assert u[k] == a.max && u[l] == b.max;
    assert u[k] == c.max || u[l] == c.max;
  }

  lemma {:induction false} SummarizesCombine(a: Option<Agg>, r: Readings, b: Option<Agg>, s: Readings)
    requires Summarizes(a, r) && Summarizes(b, s) && r.Keys !! s.Keys
    ensures Summarizes(Combine(a, b), r + s)
  {
    if a.None? {
      assert r + s == s;
    } else if b.None? {
      assert r + s == r;
    } else {
      DescribesMerge(a.value, r, b.value, s);
    }
  }

  /** A set of readings has exactly one aggregate. */
  lemma {:induction false} SummarizesUnique(a: Option<Agg>, b: Option<Agg>, r: Readings)
    requires Summarizes(a, r) && Summarizes(b, r)
    ensures a == b
  {
  }

  ghost function Times(n: nat, x: real): real
  {
    if n == 0 then 0.0 else Times(n - 1, x) + x
  }

  lemma {:induction false} TimesIsProduct(n: nat, x: real)
    ensures Times(n, x) == n as real * x
  {
    if n == 0 {
      assert n as real == 0.0;
    } else {
      TimesIsProduct(n - 1, x);
      assert n as real == (n - 1) as real + 1.0;
    }
  }

  lemma {:induction false} SumBounds(keys: set<nat>, r: Readings, lo: real, hi: real)
    requires keys <= r.Keys
    requires forall i :: i in keys ==> lo <= r[i] <= hi
    ensures Times(|keys|, lo) <= Sum(keys, r) <= Times(|keys|, hi)
  {
    if keys != {} {
      var i := Pick(keys);
      assert |keys| == |keys - {i}| + 1;
      SumBounds(keys - {i}, r, lo, hi);
    }
  }

  lemma {:induction false} DivideBounds(sum: real, n: real, lo: real, hi: real)
    requires n > 0.0 && n * lo <= sum <= n * hi
    ensures lo <= sum / n <= hi
  {
    var mean := sum / n;
    assert n * mean == sum;
    assert n * (mean - lo) >= 0.0 && n * (hi - mean) >= 0.0;
  }

  /** The bound behind a point's `min <= value <= max`. */
  lemma {:induction false} MeanWithinRange(a: Agg, r: Readings)
    requires Describes(a, r)
    ensures a.count > 0
    ensures a.min <= a.sum / a.count as real <= a.max
  {
    SumBounds(r.Keys, r, a.min, a.max);
    TimesIsProduct(a.count, a.min);
    TimesIsProduct(a.count, a.max);
    DivideBounds(a.sum, a.count as real, a.min, a.max);
  }

  /** Every aggregate of real readings survives being stored and read back through the summarized-mode filter. */
  lemma {:induction false} StoredAggregateReadsBack(a: Agg, r: Readings)
    requires Describes(a, r)
    ensures Item(Encode(a), true) == Some(a)
  {
    assert a.count > 0;
    var i :| i in r;
    assert a.min <= r[i] <= a.max;
    assert (a.count as real).Floor == a.count;
  }
}
