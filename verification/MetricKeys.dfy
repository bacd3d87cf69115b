/** GPU metric keys: built by `_gpu_rows` (sparkscope/parsers.py), taken apart by `component_metric`
    (sparkscope/hardware.py). */
module MetricKeys {
  import opened Options
  import opened Text

  predicate IdChar(c: char)
  {
    'A' <= c <= 'Z' || 'a' <= c <= 'z' || '0' <= c <= '9' || c == '-'
  }

  /** `GPU-[A-Za-z0-9-]+`, in full. */
  predicate IsIdentity(id: string)
  {
    |id| > 4 && id[..4] == "GPU-" && forall i :: 4 <= i < |id| ==> IdChar(id[i])
  }

  /** An identity is `GPU-` and then at least one letter, digit or dash. */
  lemma {:induction false} IdentityIff(id: string)
    ensures IsIdentity(id) <==>
              exists rest: string :: rest != "" && id == "GPU-" + rest
                && forall i :: 0 <= i < |rest| ==>
                     'A' <= rest[i] <= 'Z' || 'a' <= rest[i] <= 'z' || '0' <= rest[i] <= '9' || rest[i] == '-'
  {
    if IsIdentity(id) {
      assert id == "GPU-" + id[4..];
    }
    if exists rest: string :: rest != "" && id == "GPU-" + rest && forall i :: 0 <= i < |rest| ==> IdChar(rest[i]) {
      var rest: string :| rest != "" && id == "GPU-" + rest && forall i :: 0 <= i < |rest| ==> IdChar(rest[i]);
      assert forall i :: 4 <= i < |id| ==> id[i] == rest[i - 4];
    }
  }

  /** `.+`, in full. */
  predicate IsField(field: string)
  {
    field != "" && '\n' !in field
  }

  /** Where the run of identity characters that starts at `i` ends. */
  function IdEnd(s: string, i: nat): (k: nat)
    requires i <= |s|
    ensures i <= k <= |s|
    ensures forall j :: i <= j < k ==> IdChar(s[j])
    ensures k < |s| ==> !IdChar(s[k])
    decreases |s| - i
  {
    if i < |s| && IdChar(s[i]) then IdEnd(s, i + 1) else i
  }

  /** The component a metric belongs to, and its canonical name. */
  function ComponentMetric(metric: string): (Option<string>, string)
  {
    if |metric| <= 8 || metric[..8] != "gpu.GPU-" then (None, metric)
    else
      var k := IdEnd(metric, 8);
      if k > 8 && k + 1 < |metric| && metric[k] == '.' && '\n' !in metric[k + 1..]
      then (Some(metric[4..k]), "gpu." + metric[k + 1..])
      else (None, metric)
  }

  /** `f"gpu.{identity}.{field}"`. */
  function Key(id: string, field: string): string
  {
    "gpu." + id + "." + field
  }

  /** A key gives back exactly its identity and field. */
  lemma {:induction false} KeyInverts(id: string, field: string)
    requires IsIdentity(id) && IsField(field)
    ensures ComponentMetric(Key(id, field)) == (Some(id), "gpu." + field)
  {
    var m := Key(id, field);
    var n := 4 + |id|;
    assert m[4..n] == id && m[n] == '.' && m[n + 1..] == field;
    assert m[..8] == "gpu." + id[..4];
    assert forall j :: 8 <= j < n ==> m[j] == id[j - 4];
    var k := IdEnd(m, 8);
    assert !IdChar(m[n]);
    assert k == n;
  }

  /** And only keys have a component: the identity and field are the ones they were built from. */
  lemma {:induction false} OnlyKeysHaveComponents(metric: string, id: string, canonical: string)
    requires ComponentMetric(metric) == (Some(id), canonical)
    ensures IsIdentity(id) && |canonical| > 4 && IsField(canonical[4..])
    ensures canonical == "gpu." + canonical[4..] && metric == Key(id, canonical[4..])
  {
    var k := IdEnd(metric, 8);
    assert id == metric[4..k];
    assert id[..4] == metric[..8][4..8] == "GPU-";
    forall i | 4 <= i < |id|
      ensures IdChar(id[i])
    {
      assert id[i] == metric[i + 4];
    }
    assert canonical[4..] == metric[k + 1..];
    assert metric == metric[..4] + metric[4..k] + [metric[k]] + metric[k + 1..];
    assert metric[..4] == metric[..8][..4];
  }

  lemma {:induction false} KeysInjective(id: string, field: string, id': string, field': string)
    requires IsIdentity(id) && IsField(field) && IsIdentity(id') && IsField(field') && Key(id, field) == Key(id', field')
    ensures id == id' && field == field'
  {
    KeyInverts(id, field);
    KeyInverts(id', field');
    assert ("gpu." + field)[4..] == field;
    assert ("gpu." + field')[4..] == field';
  }

  // ---------------------------------------------------------------- rows

  function Digits(n: nat): string
  {
    if n < 10 then ["0123456789"[n]] else Digits(n / 10) + ["0123456789"[n % 10]]
  }

  /** A value as `convert` returns it: a number or nothing. */
  type Convert = (string, string) -> Option<real>

  datatype Table = Table(fields: seq<string>, convert: Convert, includeMissing: bool)

  /** The loop over fields, writing under a prefix and, for a lone row without identity, under the alias too. */
  function WithFields(result: map<string, Option<real>>, t: Table, prefix: string, alias: bool, parts: seq<string>, n: nat)
    : map<string, Option<real>>
    requires n <= |t.fields| == |parts|
  {
    if n == 0 then result
    else
      var before := WithFields(result, t, prefix, alias, parts, n - 1);
      var field := t.fields[n - 1];
      var value := t.convert(field, parts[n - 1]);
      if value.None? && !t.includeMissing then before
      else if alias then before[prefix + field := value]["gpu." + field := value]
      else before[prefix + field := value]
  }

  function Prefix(name: string): string
  {
    "gpu." + name + "."
  }

  /** One row, already split at commas and stripped: with an identity, without one, or malformed. */
  function WithRow(result: map<string, Option<real>>, t: Table, row: seq<string>, index: nat, alone: bool)
    : map<string, Option<real>>
  {
    if |row| == |t.fields| + 1 then
      if IsIdentity(row[0]) then WithFields(result, t, Prefix(row[0]), false, row[1..], |t.fields|) else result
    else if |row| != |t.fields| then result
    else WithFields(result, t, Prefix(Digits(index)), alone, row, |t.fields|)
  }

  function Rows(t: Table, rows: seq<seq<string>>, n: nat): map<string, Option<real>>
    requires n <= |rows|
  {
    if n == 0 then map[] else WithRow(Rows(t, rows, n - 1), t, rows[n - 1], n - 1, |rows| == 1)
  }

  /** `[part.strip() for part in line.split(",")]`. */
  function Parts(line: string): seq<string>
  {
    var parts := Split(line, ',');
    seq(|parts|, i requires 0 <= i < |parts| => Strip(parts[i], IsSpace))
  }

  /** The parts of each line that is not blank. */
  function PartsOf(lines: seq<string>): seq<seq<string>>
  {
    if lines == [] then []
    else if Strip(lines[0], IsSpace) == "" then PartsOf(lines[1..])
    else [Parts(lines[0])] + PartsOf(lines[1..])
  }

  /** `_gpu_rows`. */
  method GpuRows(data: string, t: Table) returns (result: map<string, Option<real>>)
    ensures result == Rows(t, PartsOf(SplitLines(data)), |PartsOf(SplitLines(data))|)
  {
    var rows := PartsOf(SplitLines(data));
    result := map[];
    for index := 0 to |rows|
      invariant result == Rows(t, rows, index)
    {
      var identity: Option<string>, parts := None, rows[index];
      if |parts| == |t.fields| + 1 {
        identity, parts := Some(parts[0]), parts[1..];
        if !IsIdentity(identity.value) {
          continue;
        }
      }
      if |parts| != |t.fields| {
        continue;
      }
      var name := if identity.Some? then identity.value else Digits(index);
      ghost var before := result;
      for n := 0 to |t.fields|
        invariant result == WithFields(before, t, Prefix(name), identity.None? && |rows| == 1, parts, n)
      {
        var value := t.convert(t.fields[n], parts[n]);
        if value.Some? || t.includeMissing {
          result := result[Prefix(name) + t.fields[n] := value];
          if identity.None? && |rows| == 1 {
            result := result["gpu." + t.fields[n] := value];
          }
        }
      }
    }
  }

  // ---------------------------------------------------------------- identity, not order

  predicate TableOk(t: Table)
  {
    && (forall i :: 0 <= i < |t.fields| ==> IsField(t.fields[i]))
    && (forall i, j :: 0 <= i < j < |t.fields| ==> t.fields[i] != t.fields[j])
  }

  /** Every row names its GPU, and no two name the same. */
  predicate Identified(t: Table, rows: seq<seq<string>>)
  {
    && (forall i :: 0 <= i < |rows| ==> |rows[i]| == |t.fields| + 1 && IsIdentity(rows[i][0]))
    && (forall i, j :: 0 <= i < j < |rows| ==> rows[i][0] != rows[j][0])
  }

  /** What a row says about one of its fields. */
  function Reported(t: Table, row: seq<string>, f: nat): Option<Option<real>>
    requires f < |t.fields| && |row| == |t.fields| + 1
  {
    var value := t.convert(t.fields[f], row[f + 1]);
    if value.Some? || t.includeMissing then Some(value) else None
  }

  lemma {:induction false} FieldHit(result: map<string, Option<real>>, t: Table, id: string, parts: seq<string>,
                                    n: nat, f: nat)
    requires TableOk(t) && IsIdentity(id) && f < n <= |t.fields| == |parts|
    ensures var value := t.convert(t.fields[f], parts[f]);
            Lookup(WithFields(result, t, Prefix(id), false, parts, n), Key(id, t.fields[f]))
            == if value.Some? || t.includeMissing then Some(value) else Lookup(result, Key(id, t.fields[f]))
  {
    if f < n - 1 {
      FieldHit(result, t, id, parts, n - 1, f);
      FieldKeysDiffer(t, id, f, n - 1);
    } else {
      forall g | 0 <= g < f
        ensures Key(id, t.fields[f]) != Key(id, t.fields[g])
      {
        FieldKeysDiffer(t, id, g, f);
      }
      FieldMiss(result, t, id, parts, n - 1, Key(id, t.fields[f]));
    }
  }

  lemma {:induction false} FieldKeysDiffer(t: Table, id: string, f: nat, g: nat)
    requires TableOk(t) && IsIdentity(id) && f < g < |t.fields|
    ensures Key(id, t.fields[f]) != Key(id, t.fields[g])
  {
    if Key(id, t.fields[f]) == Key(id, t.fields[g]) {
      KeysInjective(id, t.fields[f], id, t.fields[g]);
    }
  }

  lemma {:induction false} FieldMiss(result: map<string, Option<real>>, t: Table, id: string, parts: seq<string>,
                                     n: nat, key: string)
    requires n <= |t.fields| == |parts| && forall f :: 0 <= f < n ==> key != Key(id, t.fields[f])
    ensures Lookup(WithFields(result, t, Prefix(id), false, parts, n), key) == Lookup(result, key)
  {
    if n > 0 {
      FieldMiss(result, t, id, parts, n - 1, key);
    }
  }

  /** No row among the first `n` is reported under the key. */
  predicate Unnamed(t: Table, rows: seq<seq<string>>, n: nat, key: string)
    requires n <= |rows|
  {
    forall i, f :: 0 <= i < n && 0 <= f < |t.fields| && rows[i] != [] ==> key != Key(rows[i][0], t.fields[f])
  }

  /** Nothing is held under other keys than those of the rows. */
  lemma {:induction false} RowMiss(t: Table, rows: seq<seq<string>>, n: nat, key: string)
    requires Identified(t, rows) && n <= |rows| && Unnamed(t, rows, n, key)
    ensures key !in Rows(t, rows, n)
  {
    if n > 0 {
      RowMiss(t, rows, n - 1, key);
      FieldMiss(Rows(t, rows, n - 1), t, rows[n - 1][0], rows[n - 1][1..], |t.fields|, key);
    }
  }

  /** Under the key of a row's field is what that row reports. */
  lemma {:induction false} RowHit(t: Table, rows: seq<seq<string>>, n: nat, i: nat, f: nat)
    requires TableOk(t) && Identified(t, rows) && i < n <= |rows| && f < |t.fields|
    ensures Lookup(Rows(t, rows, n), Key(rows[i][0], t.fields[f])) == Reported(t, rows[i], f)
  {
    var key, last := Key(rows[i][0], t.fields[f]), rows[n - 1];
    forall k, g | 0 <= k < n && 0 <= g < |t.fields| && k != i
      ensures key != Key(rows[k][0], t.fields[g])
    {
      if key == Key(rows[k][0], t.fields[g]) {
        KeysInjective(rows[i][0], t.fields[f], rows[k][0], t.fields[g]);
      }
    }
    if i == n - 1 {
      RowMiss(t, rows, n - 1, key);
      FieldHit(Rows(t, rows, n - 1), t, last[0], last[1..], |t.fields|, f);
    } else {
      RowHit(t, rows, n - 1, i, f);
      FieldMiss(Rows(t, rows, n - 1), t, last[0], last[1..], |t.fields|, key);
    }
  }

  /** Metrics survive reordering: two listings of the same identified rows parse to the same result. */
  lemma {:induction false} OrderIrrelevant(t: Table, a: seq<seq<string>>, b: seq<seq<string>>)
    requires TableOk(t) && Identified(t, a) && Identified(t, b) && forall r :: r in a <==> r in b
    ensures Rows(t, a, |a|) == Rows(t, b, |b|)
  {
    forall key
      ensures Lookup(Rows(t, a, |a|), key) == Lookup(Rows(t, b, |b|), key)
    {
      SameEntry(t, a, b, key);
    }
    SameLookups(Rows(t, a, |a|), Rows(t, b, |b|));
  }

  lemma {:induction false} SameEntry(t: Table, a: seq<seq<string>>, b: seq<seq<string>>, key: string)
    requires TableOk(t) && Identified(t, a) && Identified(t, b) && forall r :: r in a <==> r in b
    ensures Lookup(Rows(t, a, |a|), key) == Lookup(Rows(t, b, |b|), key)
  {
    if Unnamed(t, a, |a|, key) {
      forall j, f | 0 <= j < |b| && 0 <= f < |t.fields|
        ensures key != Key(b[j][0], t.fields[f])
      {
        assert b[j] in a;
        var i :| 0 <= i < |a| && a[i] == b[j];
        assert key != Key(a[i][0], t.fields[f]);
      }
      RowMiss(t, a, |a|, key);
      RowMiss(t, b, |b|, key);
    } else {
      var i, f :| 0 <= i < |a| && 0 <= f < |t.fields| && a[i] != [] && key == Key(a[i][0], t.fields[f]);
      assert a[i] in b;
      var j :| 0 <= j < |b| && b[j] == a[i];
      RowHit(t, a, |a|, i, f);
      RowHit(t, b, |b|, j, f);
    }
  }

  // ---------------------------------------------------------------- rows without an identity

  /** A row with neither as many parts as fields, nor an identity before them, adds nothing. */
  lemma {:induction false} MalformedIgnored(t: Table, rows: seq<seq<string>>, n: nat)
    requires 0 < n <= |rows| && |rows[n - 1]| != |t.fields|
    requires |rows[n - 1]| != |t.fields| + 1 || !IsIdentity(rows[n - 1][0])
    ensures Rows(t, rows, n) == Rows(t, rows, n - 1)
  {
  }

  /** The fields written so far under a prefix other than the alias's. */
  lemma {:induction false} PlainHit(result: map<string, Option<real>>, t: Table, prefix: string, alias: bool,
                                    parts: seq<string>, n: nat, f: nat)
    requires TableOk(t) && f < n <= |t.fields| == |parts|
    requires alias ==> forall g :: 0 <= g < |t.fields| ==> "gpu." + t.fields[g] != prefix + t.fields[f]
    ensures var value := t.convert(t.fields[f], parts[f]);
            value.Some? || t.includeMissing ==>
              Lookup(WithFields(result, t, prefix, alias, parts, n), prefix + t.fields[f]) == Some(value)
  {
    if f < n - 1 {
      PlainHit(result, t, prefix, alias, parts, n - 1, f);
      SuffixesDiffer(prefix, t.fields[f], t.fields[n - 1]);
    }
  }

  lemma {:induction false} SuffixesDiffer(prefix: string, a: string, b: string)
    requires a != b
    ensures prefix + a != prefix + b
  {
    assert (prefix + a)[|prefix|..] == a && (prefix + b)[|prefix|..] == b;
  }

  lemma {:induction false} AliasHit(result: map<string, Option<real>>, t: Table, prefix: string, parts: seq<string>,
                                    n: nat, f: nat)
    requires TableOk(t) && f < n <= |t.fields| == |parts|
    requires forall g :: 0 <= g < |t.fields| ==> "gpu." + t.fields[f] != prefix + t.fields[g]
    ensures var value := t.convert(t.fields[f], parts[f]);
            value.Some? || t.includeMissing ==>
              Lookup(WithFields(result, t, prefix, true, parts, n), "gpu." + t.fields[f]) == Some(value)
  {
    if f < n - 1 {
      AliasHit(result, t, prefix, parts, n - 1, f);
      SuffixesDiffer("gpu.", t.fields[f], t.fields[n - 1]);
    }
  }

  /** A row of exactly as many parts as fields is reported under its place in the listing, and a lone one under the alias
      without a place too. */
  lemma {:induction false} PlainRow(t: Table, rows: seq<seq<string>>, n: nat, f: nat)
    requires TableOk(t) && 0 < n <= |rows| && |rows[n - 1]| == |t.fields| && f < |t.fields|
    requires forall g, h :: 0 <= g < |t.fields| && 0 <= h < |t.fields| ==>
               "gpu." + t.fields[g] != Prefix(Digits(n - 1)) + t.fields[h]
    ensures var value := t.convert(t.fields[f], rows[n - 1][f]);
            value.Some? || t.includeMissing ==>
              && Lookup(Rows(t, rows, n), Prefix(Digits(n - 1)) + t.fields[f]) == Some(value)
              && (|rows| == 1 ==> Lookup(Rows(t, rows, n), "gpu." + t.fields[f]) == Some(value))
  {
    var before, prefix := Rows(t, rows, n - 1), Prefix(Digits(n - 1));
    PlainHit(before, t, prefix, |rows| == 1, rows[n - 1], |t.fields|, f);
    if |rows| == 1 {
      AliasHit(before, t, prefix, rows[n - 1], |t.fields|, f);
    }
  }

  // ---------------------------------------------------------------- printing and back

  /** A value that can be printed between commas: no comma, no line break, no white space around it. */
  predicate IsCell(cell: string)
  {
    && ',' !in cell && OneLine(cell)
    && (cell != "" ==> !IsSpace(cell[0]) && !IsSpace(cell[|cell| - 1]))
  }

  /** At least one cell, and not a lone empty one, which would print as a blank line. */
  predicate IsRow(row: seq<string>)
  {
    row != [] && row != [""] && forall i :: 0 <= i < |row| ==> IsCell(row[i])
  }

  predicate AreRows(rows: seq<seq<string>>)
  {
    forall i :: 0 <= i < |rows| ==> IsRow(rows[i])
  }

  /** The cells as they stand between the commas of `--format=csv`: a space before each but the first. */
  function Spaced(row: seq<string>): seq<string>
  {
    seq(|row|, i requires 0 <= i < |row| => if i == 0 then row[i] else " " + row[i])
  }

  function Line(row: seq<string>): string
  {
    Join(Spaced(row), ',')
  }

  /** What the command prints for these rows. */
  function Listing(rows: seq<seq<string>>): string
  {
    if rows == [] then "" else Line(rows[0]) + "\n" + Listing(rows[1..])
  }

  lemma {:induction false} StripCell(cell: string)
    requires IsCell(cell)
    ensures Strip(cell, IsSpace) == cell && Strip(" " + cell, IsSpace) == cell
  {
    StripLeftOne(' ', cell, IsSpace);
    assert [' '] + cell == " " + cell;
  }

  lemma {:induction false} PartsOfLine(row: seq<string>)
    requires IsRow(row)
    ensures Parts(Line(row)) == row
  {
    SplitJoin(Spaced(row), ',');
    forall i | 0 <= i < |row|
      ensures Strip(Spaced(row)[i], IsSpace) == row[i]
    {
      StripCell(row[i]);
    }
  }

  /** A property of characters that the parts and the mark have, their join has. */
  lemma {:induction false} JoinAll(parts: seq<string>, mark: char)
    requires !IsBreak(mark) && forall i :: 0 <= i < |parts| ==> OneLine(parts[i])
    ensures OneLine(Join(parts, mark))
  {
    if |parts| > 1 {
      JoinAll(parts[..|parts| - 1], mark);
    }
  }

  lemma {:induction false} LineIsLine(row: seq<string>)
    requires IsRow(row)
    ensures OneLine(Line(row)) && Strip(Line(row), IsSpace) != ""
  {
    forall i | 0 <= i < |row|
      ensures OneLine(Spaced(row)[i])
    {
      assert OneLine(row[i]);
    }
    JoinAll(Spaced(row), ',');
    var i := VisibleAt(row);
    StripKeeps(Line(row), IsSpace, i);
  }

  /** A printed row is never blank: it has a comma, or its only cell has a character. */
  lemma {:induction false} VisibleAt(row: seq<string>) returns (i: nat)
    requires IsRow(row)
    ensures i < |Line(row)| && !IsSpace(Line(row)[i])
  {
    var n := |row| - 1;
    if n == 0 {
      assert Line(row) == row[0];
      i := 0;
    } else {
      var front := Join(Spaced(row)[..n], ',');
      assert Line(row) == front + [','] + Spaced(row)[n];
      i := |front|;
    }
  }

  /** Splitting lines and commas and stripping undoes printing. */
  lemma {:induction false} ListingReadsBack(rows: seq<seq<string>>)
    requires AreRows(rows)
    ensures PartsOf(SplitLines(Listing(rows))) == rows
  {
    if rows != [] {
      ListingReadsBack(rows[1..]);
      LineIsLine(rows[0]);
      FirstLine(Line(rows[0]), Listing(rows[1..]));
      PartsOfLine(rows[0]);
    }
  }

  /** From text to metrics: two listings that print the same identified rows, in whatever order, give the same metrics. */
  lemma {:induction false} ListingOrderIrrelevant(t: Table, a: seq<seq<string>>, b: seq<seq<string>>)
    requires AreRows(a) && AreRows(b)
    requires TableOk(t) && Identified(t, a) && Identified(t, b) && forall r :: r in a <==> r in b
    ensures var (x, y) := (PartsOf(SplitLines(Listing(a))), PartsOf(SplitLines(Listing(b))));
            Rows(t, x, |x|) == Rows(t, y, |y|)
  {
    ListingReadsBack(a);
    ListingReadsBack(b);
    OrderIrrelevant(t, a, b);
  }
}
