/** Floor arithmetic on timestamps: the `int(ts // width)` of the Python source, on exact reals. */
module Cells {

  lemma {:induction false} ScaleOrder(a: int, b: int, width: int)
    requires width > 0
    ensures a < b <==> a * width < b * width
    ensures a <= b <==> a * width <= b * width
  {
  }

  lemma {:induction false} ScaleReals(x: real, y: real, w: real)
    requires w > 0.0
    ensures x < y <==> x * w < y * w
  {
  }

  lemma {:induction false} RealProduct(a: int, b: int)
    ensures (a * b) as real == a as real * b as real
  {
  }

  lemma {:induction false} Quotient(x: real, w: real)
    requires w > 0.0
    ensures x / w * w == x
  {
  }

  lemma {:induction false} ScaleBounds(x: real, lo: real, hi: real, w: real)
    requires w > 0.0 && lo <= x < hi
    ensures lo * w <= x * w < hi * w
  {
    ScaleReals(x, lo, w);
    ScaleReals(x, hi, w);
  }

  lemma {:induction false} FloorOfQuotient(x: real, ts: real, width: int, q: int)
    requires width > 0 && x * width as real == ts && q as real <= x < (q + 1) as real
    ensures (q * width) as real <= ts < ((q + 1) * width) as real
  {
    ScaleBounds(x, q as real, (q + 1) as real, width as real);
    RealProduct(q, width);
    RealProduct(q + 1, width);
  }

  /** `int(ts // width)`. */
  function Div(ts: real, width: int): (q: int)
    requires width > 0
    ensures (q * width) as real <= ts < ((q + 1) * width) as real
  {
    var x := ts / width as real;
    Quotient(ts, width as real);
    FloorOfQuotient(x, ts, width, x.Floor);
    x.Floor
  }

  /** `math.ceil`. */
  function Ceil(x: real): (n: int)
    ensures n as real >= x > (n - 1) as real
  {
    -((-x).Floor)
  }

  lemma {:induction false} SpanCovered(span: real, n: nat, width: int)
    requires n > 0 && span / n as real <= width as real
    ensures span <= (n * width) as real
  {
    Quotient(span, n as real);
    ScaleReals(width as real, span / n as real, n as real);
    RealProduct(n, width);
  }

  /** Cells at least `span / n` wide number `0` to `n` on the span. */
  lemma {:induction false} CellCount(t: real, span: real, n: nat, width: int)
    requires width > 0 && n > 0 && 0.0 <= t <= span && span / n as real <= width as real
    ensures 0 <= Div(t, width) <= n
  {
    var j := Div(t, width);
    SpanCovered(span, n, width);
    ScaleOrder(j, n, width);
    ScaleOrder(0, j + 1, width);
  }

  /** Strictly increasing integers between 0 and `n` number at most `n + 1`. */
  lemma {:induction false} IncreasingBounded(s: seq<int>, n: int)
    requires forall i, j :: 0 <= i < j < |s| ==> s[i] < s[j]
    requires forall i :: 0 <= i < |s| ==> 0 <= s[i] <= n
    ensures |s| <= n + 1 || s == []
  {
    if |s| > 1 {
      IncreasingBounded(s[..|s| - 1], s[|s| - 1] - 1);
    }
  }

  /** `sorted(buckets)`. */
  method SortedKeys(keys: set<int>) returns (r: seq<int>)
    ensures forall j :: j in r <==> j in keys
    ensures forall i, j :: 0 <= i < j < |r| ==> r[i] < r[j]
  {
    r := [];
    var todo := keys;
    while todo != {}
      invariant todo <= keys
      invariant forall j :: j in r <==> j in keys && j !in todo
      invariant forall i, j :: 0 <= i < j < |r| ==> r[i] < r[j]
      invariant forall i, j :: 0 <= i < |r| && j in todo ==> r[i] < j
      decreases todo
    {
      var least := LeastOf(todo);
      r := r + [least];
      todo := todo - {least};
    }
  }

  lemma {:induction false} SomeMember(keys: set<int>)
    requires keys != {}
    ensures exists j :: j in keys
  {
    if forall j: int :: j !in keys {
      assert false;
    }
  }

  method LeastOf(keys: set<int>) returns (least: int)
    requires keys != {}
    ensures least in keys && forall j :: j in keys ==> least <= j
  {
    SomeMember(keys);
    least :| least in keys;
    var todo := keys - {least};
    while todo != {}
      invariant least in keys && todo <= keys
      invariant forall j :: j in keys && j !in todo ==> least <= j
      decreases todo
    {
      SomeMember(todo);
      var j :| j in todo;
      if j < least {
        least := j;
      }
      todo := todo - {j};
    }
  }
}
