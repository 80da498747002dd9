/** Weighted median and household choice (scripts/run_scf_capital_dogfood.py). Decimals are reals. */
module WeightedMedian {
  import opened Common
  import opened StableSort

  datatype Row = Row(value: real, weight: real)

  function Total(rows: seq<Row>): real {
    if rows == [] then 0.0 else Total(rows[..|rows| - 1]) + rows[|rows| - 1].weight
  }

  /** The weight of the rows with value at most v. */
  function AtMost(rows: seq<Row>, v: real): real {
    if rows == [] then 0.0
    else
      var last := rows[|rows| - 1];
      AtMost(rows[..|rows| - 1], v) + (if last.value <= v then last.weight else 0.0)
  }

  /** The weight of the rows with value strictly below v. */
  function Below(rows: seq<Row>, v: real): real {
    if rows == [] then 0.0
    else
      var last := rows[|rows| - 1];
      Below(rows[..|rows| - 1], v) + (if last.value < v then last.weight else 0.0)
  }

  /** The running weight after the first n rows. */
  function Running(rows: seq<Row>, n: nat): real {
    Total(rows[..Min(n, |rows|)])
  }

  function Above(rows: seq<Row>, v: real): real {
    Total(rows) - AtMost(rows, v)
  }

  predicate NonNegative(rows: seq<Row>) {
    forall i :: 0 <= i < |rows| ==> rows[i].weight >= 0.0
  }

  predicate Ascending(rows: seq<Row>) {
    forall i, j :: 0 <= i < j < |rows| ==> rows[i].value <= rows[j].value
  }

  function ValueOf(row: Row): real {
    row.value
  }

  /** `sorted(rows, key=value)` */
  function Sort(rows: seq<Row>): seq<Row> {
    SortBy(rows, ValueOf)
  }

  // ------------------------------------------- sums do not depend on order

  lemma {:induction false} SumsAppend(a: seq<Row>, b: seq<Row>, v: real)
    ensures Total(a + b) == Total(a) + Total(b)
    ensures AtMost(a + b, v) == AtMost(a, v) + AtMost(b, v)
    ensures Below(a + b, v) == Below(a, v) + Below(b, v)
  {
    if b == [] {
      assert a + b == a;
    } else {
      assert (a + b)[..|a + b| - 1] == a + b[..|b| - 1];
      SumsAppend(a, b[..|b| - 1], v);
    }
  }

  /** Taking one row out of the middle takes its weight out of every sum. */
  lemma SumsWithout(rows: seq<Row>, i: nat, v: real)
    requires i < |rows|
    ensures var rest := rows[..i] + rows[i + 1..]; var x := rows[i];
      && Total(rows) == Total(rest) + x.weight
      && AtMost(rows, v) == AtMost(rest, v) + (if x.value <= v then x.weight else 0.0)
      && Below(rows, v) == Below(rest, v) + (if x.value < v then x.weight else 0.0)
  {
    assert rows == rows[..i] + ([rows[i]] + rows[i + 1..]);
    SumsAppend(rows[..i], [rows[i]] + rows[i + 1..], v);
    SumsAppend([rows[i]], rows[i + 1..], v);
    SumsAppend(rows[..i], rows[i + 1..], v);
    OneRow(rows[i], v);
  }

  lemma OneRow(x: Row, v: real)
    ensures Total([x]) == x.weight
    ensures AtMost([x], v) == if x.value <= v then x.weight else 0.0
    ensures Below([x], v) == if x.value < v then x.weight else 0.0
  {
    assert [x][..0] == [];
  }

  lemma RowsWithoutOne(rows: seq<Row>, i: nat)
    requires i < |rows|
    ensures multiset(rows) == multiset(rows[..i] + rows[i + 1..]) + multiset{rows[i]}
  {
    assert rows == rows[..i] + ([rows[i]] + rows[i + 1..]);
  }

  lemma {:induction false} SumsPermute(a: seq<Row>, b: seq<Row>, v: real)
    requires multiset(a) == multiset(b)
    ensures Total(a) == Total(b) && AtMost(a, v) == AtMost(b, v) && Below(a, v) == Below(b, v)
    decreases |a|
  {
    if a == [] {
      assert |multiset(b)| == 0;
    } else {
      var n := |a| - 1;
      var x := a[n];
      assert x in multiset(b);
      var i :| 0 <= i < |b| && b[i] == x;
      var rest := b[..i] + b[i + 1..];
      assert a == a[..n] + [x];
      assert multiset(a) == multiset(a[..n]) + multiset{x};
      RowsWithoutOne(b, i);
      assert multiset(a[..n]) == multiset(a) - multiset{x} && multiset(rest) == multiset(b) - multiset{x};
      SumsPermute(a[..n], rest, v);
      SumsWithout(b, i, v);
    }
  }

  // ---------------------------------------------------------------- median

  /** `v` is the least row value with at least half the weight at or below it. */
  predicate LeastHeavy(rows: seq<Row>, v: real) {
    && (exists i :: 0 <= i < |rows| && rows[i].value == v)
    && AtMost(rows, v) >= Total(rows) / 2.0
    && (forall i :: 0 <= i < |rows| && rows[i].value < v ==> AtMost(rows, rows[i].value) < Total(rows) / 2.0)
  }

  lemma {:induction false} SumsOrdered(rows: seq<Row>, v: real)
    requires NonNegative(rows)
    ensures 0.0 <= Below(rows, v) <= AtMost(rows, v) <= Total(rows)
  {
    if rows != [] {
      SumsOrdered(rows[..|rows| - 1], v);
    }
  }

  /** In ascending order, a row's prefix holds everything below it and nothing above it. */
  lemma {:induction false} PrefixSums(rows: seq<Row>, i: nat)
    requires NonNegative(rows) && Ascending(rows) && i < |rows|
    ensures Below(rows, rows[i].value) <= Total(rows[..i])
    ensures Total(rows[..i + 1]) <= AtMost(rows, rows[i].value)
  {
    var v := rows[i].value;
    var low, high := rows[..i + 1], rows[i + 1..];
    assert rows == low + high && low == rows[..i] + [rows[i]];
    SumsAppend(low, high, v);
    SumsAppend(rows[..i], [rows[i]], v);
    OneRow(rows[i], v);
    AllAtMost(low, v);
    NoneBelow(high, v);
    SumsOrdered(high, v);
    SumsOrdered(rows[..i], v);
  }

  lemma {:induction false} AllAtMost(rows: seq<Row>, v: real)
    requires forall i :: 0 <= i < |rows| ==> rows[i].value <= v
    ensures AtMost(rows, v) == Total(rows)
  {
    if rows != [] {
      AllAtMost(rows[..|rows| - 1], v);
    }
  }

  lemma {:induction false} NoneBelow(rows: seq<Row>, v: real)
    requires forall i :: 0 <= i < |rows| ==> v <= rows[i].value
    ensures Below(rows, v) == 0.0
  {
    if rows != [] {
      NoneBelow(rows[..|rows| - 1], v);
    }
  }

  lemma {:induction false} LowerValueAtMostBelow(rows: seq<Row>, u: real, v: real)
    requires NonNegative(rows) && u < v
    ensures AtMost(rows, u) <= Below(rows, v)
  {
    if rows != [] {
      LowerValueAtMostBelow(rows[..|rows| - 1], u, v);
    }
  }

  /** The loop's answer: where the running weight first reaches half. `None` is the error. */
  method WeightedMedian(rows: seq<Row>) returns (r: Option<real>)
    ensures rows != [] && NonNegative(rows) ==> r.Some? && LeastHeavy(rows, r.value)
    ensures r.None? <==> forall n :: 0 < n <= |rows| ==> Running(Sort(rows), n) < Total(rows) / 2.0
  {
    var ordered := Sort(rows);
    SortedSums(rows);
    var i := FirstHeavyRow(ordered);
    if i < |ordered| {
      if NonNegative(rows) {
        HalfReached(rows, ordered, i);
      }
      return Some(ordered[i].value);
    }
    if rows != [] && NonNegative(rows) {
      LastReachesHalf(rows, ordered);
    }
    return None;
  }

  /** The cumulative loop: the first row where the running weight reaches half, or past the end. */
  method FirstHeavyRow(ordered: seq<Row>) returns (i: nat)
    ensures i <= |ordered|
    ensures i < |ordered| ==> Running(ordered, i + 1) >= Total(ordered) / 2.0
    ensures forall n :: 0 < n <= i ==> Running(ordered, n) < Total(ordered) / 2.0
  {
    var threshold := Total(ordered) / 2.0;
    var cumulative := 0.0;
    i := 0;
    while i < |ordered|
      invariant i <= |ordered|
      invariant cumulative == Running(ordered, i)
      invariant forall n :: 0 < n <= i ==> Running(ordered, n) < threshold
    {
      assert ordered[..i + 1][..i] == ordered[..i];
      cumulative := cumulative + ordered[i].weight;
      if cumulative >= threshold {
        return;
      }
      i := i + 1;
    }
  }

  lemma SortedSums(rows: seq<Row>)
    ensures Ascending(Sort(rows)) && multiset(Sort(rows)) == multiset(rows)
    ensures |Sort(rows)| == |rows| && Total(Sort(rows)) == Total(rows)
  {
    SortOrders(rows, ValueOf);
    SumsPermute(rows, Sort(rows), 0.0);
    assert |Sort(rows)| == |multiset(Sort(rows))| == |multiset(rows)|;
  }

  lemma LastReachesHalf(rows: seq<Row>, ordered: seq<Row>)
    requires rows != [] && NonNegative(rows) && |ordered| == |rows| && Total(ordered) == Total(rows)
    ensures Running(ordered, |ordered|) >= Total(ordered) / 2.0
  {
    assert ordered[..|ordered|] == ordered;
    SumsOrdered(rows, 0.0);
  }

  lemma SameRowsNonNegative(rows: seq<Row>, ordered: seq<Row>)
    requires NonNegative(rows) && multiset(ordered) == multiset(rows)
    ensures NonNegative(ordered)
  {
    forall j | 0 <= j < |ordered| ensures ordered[j].weight >= 0.0 {
      assert ordered[j] in multiset(rows);
    }
  }

  lemma HalfReached(rows: seq<Row>, ordered: seq<Row>, i: nat)
    requires NonNegative(rows) && Ascending(ordered) && multiset(ordered) == multiset(rows) && i < |ordered|
    requires Running(ordered, i + 1) >= Total(ordered) / 2.0
    requires forall n :: 0 < n <= i ==> Running(ordered, n) < Total(ordered) / 2.0
    ensures LeastHeavy(rows, ordered[i].value)
  {
    var v := ordered[i].value;
    SameRowsNonNegative(rows, ordered);
    PrefixSums(ordered, i);
    SumsPermute(ordered, rows, v);
    assert ordered[i] in multiset(rows);
    forall k | 0 <= k < |rows| && rows[k].value < v
      ensures AtMost(rows, rows[k].value) < Total(rows) / 2.0
    {
      LighterBefore(rows, ordered, i, k);
    }
  }

  lemma LighterBefore(rows: seq<Row>, ordered: seq<Row>, i: nat, k: nat)
    requires NonNegative(ordered) && Ascending(ordered) && multiset(ordered) == multiset(rows)
    requires i < |ordered| && k < |rows| && rows[k].value < ordered[i].value
    requires forall n :: 0 < n <= i ==> Running(ordered, n) < Total(ordered) / 2.0
    ensures AtMost(rows, rows[k].value) < Total(rows) / 2.0
  {
    assert rows[k] in multiset(ordered);
    var j :| 0 <= j < |ordered| && ordered[j] == rows[k];
    assert j < i;
    PrefixSums(ordered, i);
    SumsPermute(ordered, rows, rows[k].value);
    LowerValueAtMostBelow(ordered, rows[k].value, ordered[i].value);
    assert Running(ordered, i) == Total(ordered[..i]);
  }

  /** A median indeed: at most half the weight lies strictly below it, and at most half strictly above. */
  lemma MedianSplitsWeight(rows: seq<Row>, v: real)
    requires NonNegative(rows) && LeastHeavy(rows, v)
    ensures Below(rows, v) <= Total(rows) / 2.0
    ensures Above(rows, v) <= Total(rows) / 2.0
  {
    SumsOrdered(rows, v);
    if u :| GreatestBelow(rows, v, u) {
      BelowIsAtMost(rows, v, u);
    } else {
      if i :| 0 <= i < |rows| && rows[i].value < v {
        GreatestBelowExists(rows, v);
      }
      NoneBelow(rows, v);
    }
  }

  predicate GreatestBelow(rows: seq<Row>, v: real, u: real) {
    && u < v
    && (exists i :: 0 <= i < |rows| && rows[i].value == u)
    && (forall i :: 0 <= i < |rows| && rows[i].value < v ==> rows[i].value <= u)
  }

  lemma {:induction false} GreatestBelowExists(rows: seq<Row>, v: real)
    requires exists i :: 0 <= i < |rows| && rows[i].value < v
    ensures exists u :: GreatestBelow(rows, v, u)
  {
    var n := |rows| - 1;
    var init, last := rows[..n], rows[n];
    assert forall i :: 0 <= i < n ==> init[i] == rows[i];
    if i :| 0 <= i < n && init[i].value < v {
      GreatestBelowExists(init, v);
      var u :| GreatestBelow(init, v, u);
      var j :| 0 <= j < |init| && init[j].value == u;
      assert rows[j].value == u;
      assert GreatestBelow(rows, v, if u < last.value < v then last.value else u);
    } else {
      assert GreatestBelow(rows, v, last.value);
    }
  }

  lemma {:induction false} BelowIsAtMost(rows: seq<Row>, v: real, u: real)
    requires u < v && forall i :: 0 <= i < |rows| && rows[i].value < v ==> rows[i].value <= u
    ensures Below(rows, v) == AtMost(rows, u)
  {
    if rows != [] {
      BelowIsAtMost(rows[..|rows| - 1], v, u);
    }
  }

  /** The median depends only on which rows there are, not on their order or the order of ties. */
  lemma MedianIgnoresOrder(a: seq<Row>, b: seq<Row>, v: real, w: real)
    requires multiset(a) == multiset(b) && LeastHeavy(a, v) && LeastHeavy(b, w)
    ensures v == w
  {
    SumsPermute(a, b, v);
    SumsPermute(a, b, w);
    var i :| 0 <= i < |a| && a[i].value == v;
    var j :| 0 <= j < |b| && b[j].value == w;
    assert a[i] in multiset(b) && b[j] in multiset(a);
    var k :| 0 <= k < |b| && b[k] == a[i];
    var l :| 0 <= l < |a| && a[l] == b[j];
  }

  // ------------------------------------------------------------- household

  datatype Household = Household(
    id: int, firstImplicate: bool, asset: real, debt: real, fin: real, nfin: real, netWorth: real, weight: real)

  predicate Eligible(h: Household) {
    h.firstImplicate && h.asset > 0.0 && h.debt > 0.0 && h.fin > 0.0 && h.nfin > 0.0
  }

  function EligibleOnly(rows: seq<Household>): (r: seq<Household>)
    ensures forall h :: h in r <==> h in rows && Eligible(h)
  {
    if rows == [] then []
    else
      var last := rows[|rows| - 1];
      assert rows == rows[..|rows| - 1] + [last];
      EligibleOnly(rows[..|rows| - 1]) + (if Eligible(last) then [last] else [])
  }

  function NetWorths(rows: seq<Household>): seq<Row> {
    seq(|rows|, i requires 0 <= i < |rows| => Row(rows[i].netWorth, rows[i].weight))
  }

  function Distance(h: Household, median: real): real {
    if h.netWorth >= median then h.netWorth - median else median - h.netWorth
  }

  /** The key (distance to the median, id) of `a` is at most that of `b`. */
  predicate Closer(a: Household, b: Household, median: real) {
    || Distance(a, median) < Distance(b, median)
    || (Distance(a, median) == Distance(b, median) && a.id <= b.id)
  }

  /** The choice is an eligible household with the least key; `None` when no household is eligible,
      or the median cannot be computed. */
  method SelectHousehold(rows: seq<Household>) returns (r: Option<(Household, real)>)
    ensures (forall h :: h in rows ==> !Eligible(h)) ==> r.None?
    ensures (exists h :: h in rows && Eligible(h)) && (forall h :: h in rows && Eligible(h) ==> h.weight >= 0.0) ==>
      r.Some? && LeastHeavy(NetWorths(EligibleOnly(rows)), r.value.1)
    ensures r.Some? ==>
      && r.value.0 in rows && Eligible(r.value.0) && r.value.0.firstImplicate
      && r.value.0.asset > 0.0 && r.value.0.debt > 0.0 && r.value.0.fin > 0.0 && r.value.0.nfin > 0.0
      && forall h :: h in rows && Eligible(h) ==> Closer(r.value.0, h, r.value.1)
  {
    var eligible := EligibleOnly(rows);
    if eligible == [] {
      return None;
    }
    assert eligible[0] in eligible;
    forall i | 0 <= i < |eligible| && (forall h :: h in rows && Eligible(h) ==> h.weight >= 0.0)
      ensures NetWorths(eligible)[i].weight >= 0.0
    {
      assert eligible[i] in eligible;
    }
    var median := WeightedMedian(NetWorths(eligible));
    if median.None? {
      return None;
    }
    var selected := eligible[0];
    for i := 1 to |eligible|
      invariant selected in eligible
      invariant forall j :: 0 <= j < i ==> Closer(selected, eligible[j], median.value)
    {
      if !Closer(selected, eligible[i], median.value) {
        selected := eligible[i];
      }
    }
    return Some((selected, median.value));
  }
}
