/** CPU utilisation and load imbalance over the fleet (metrics_collector.cpp). */
module Metrics {
  import opened EdgeNodes

  // ---- Mean and variance of a list ----

  function Sum(s: seq<real>): real {
    if s == [] then 0.0 else Sum(s[..|s| - 1]) + s[|s| - 1]
  }

  function Mean(s: seq<real>): real {
    if s == [] then 0.0 else Sum(s) / |s| as real
  }

  /** Sum of squared distances from m. */
  function Deviations(s: seq<real>, m: real): real {
    if s == [] then 0.0 else Deviations(s[..|s| - 1], m) + Square(s[|s| - 1] - m)
  }

  /** The second pass: mean squared distance from the mean. */
  function Variance(s: seq<real>): real {
    if s == [] then 0.0 else Deviations(s, Mean(s)) / |s| as real
  }

  function Square(x: real): real {
    x * x
  }

  function SumOfSquares(s: seq<real>): real {
    if s == [] then 0.0 else SumOfSquares(s[..|s| - 1]) + Square(s[|s| - 1])
  }

  function MeanOfSquares(s: seq<real>): real {
    if s == [] then 0.0 else SumOfSquares(s) / |s| as real
  }

  predicate InRange(s: seq<real>, lo: real, hi: real) {
    forall i :: 0 <= i < |s| ==> lo <= s[i] <= hi
  }

  predicate AllEqual(s: seq<real>) {
    forall i :: 0 <= i < |s| ==> s[i] == s[0]
  }

  lemma {:induction false} DeviationsExpand(s: seq<real>, m: real)
    ensures Deviations(s, m) == SumOfSquares(s) - 2.0 * m * Sum(s) + Square(m) * |s| as real
  {
    if s == [] {
    } else {
      var t, x := s[..|s| - 1], s[|s| - 1];
      DeviationsExpand(t, m);
      SquareOfDifference(x, m, |t| as real, Sum(t));
    }
  }

  lemma SquareOfDifference(x: real, m: real, n: real, sum: real)
    ensures Square(x - m) == Square(x) - 2.0 * m * x + Square(m)
    ensures Square(m) * (n + 1.0) == Square(m) * n + Square(m)
    ensures 2.0 * m * (sum + x) == 2.0 * m * sum + 2.0 * m * x
  {
  }

  /** Dividing undoes multiplying. */
  lemma QuotientOf(a: real, q: real, n: real)
    requires n > 0.0 && a == q * n
    ensures a / n == q
  {
  }

  lemma TimesQuotient(a: real, n: real)
    requires n > 0.0
    ensures a == (a / n) * n
  {
  }

  lemma ExpandedVariance(q: real, sum: real, m: real, n: real, mq: real)
    requires sum == m * n && q == mq * n
    ensures q - 2.0 * m * sum + Square(m) * n == (mq - Square(m)) * n
  {
    assert 2.0 * m * sum == 2.0 * (m * m * n) by {
      assert m * sum == m * (m * n) == m * m * n;
    }
    assert (mq - m * m) * n == mq * n - m * m * n;
  }

  lemma MeansOfExpanded(dev: real, q: real, sum: real, n: real, m: real, mq: real)
    requires n > 0.0 && m == sum / n && mq == q / n && dev == q - 2.0 * m * sum + Square(m) * n
    ensures dev / n == mq - Square(m)
  {
    TimesQuotient(sum, n);
    TimesQuotient(q, n);
    ExpandedVariance(q, sum, m, n, mq);
    QuotientOf(dev, mq - Square(m), n);
  }

  /** The two passes compute the mean of the squares minus the square of the mean. */
  lemma VarianceIsMeanSquareLessSquaredMean(s: seq<real>)
    ensures Variance(s) == MeanOfSquares(s) - Square(Mean(s))
  {
    if s != [] {
      DeviationsExpand(s, Mean(s));
      MeansOfExpanded(Deviations(s, Mean(s)), SumOfSquares(s), Sum(s), |s| as real, Mean(s), MeanOfSquares(s));
    }
  }

  predicate Extreme(x: real) {
    x == 0.0 || x == 100.0
  }

  predicate AllExtreme(s: seq<real>) {
    forall i :: 0 <= i < |s| ==> Extreme(s[i])
  }

  lemma BelowScaled(x: real)
    requires 0.0 <= x <= 100.0
    ensures Square(x) <= 100.0 * x && (Square(x) == 100.0 * x <==> Extreme(x))
  {
    ProductNonNegative(x, 100.0 - x);
    if 0.0 < x < 100.0 {
      assert 0.0 < x * (100.0 - x);
    }
  }

  lemma ProductNonNegative(a: real, b: real)
    requires 0.0 <= a && 0.0 <= b
    ensures 0.0 <= a * b
  {
  }

  lemma {:induction false} SquaresBelowScaledSum(s: seq<real>)
    requires InRange(s, 0.0, 100.0)
    ensures SumOfSquares(s) <= 100.0 * Sum(s) && (SumOfSquares(s) == 100.0 * Sum(s) <==> AllExtreme(s))
  {
    if s == [] {
    } else {
      var t, x := s[..|s| - 1], s[|s| - 1];
      SquaresBelowScaledSum(t);
      BelowScaled(x);
      assert AllExtreme(s) <==> AllExtreme(t) && Extreme(x);
    }
  }

  function Spread(m: real): real {
    m * (100.0 - m)
  }

  lemma ProductBound(m: real)
    ensures Spread(m) == 100.0 * m - Square(m) <= 2500.0
  {
    var d := m - 50.0;
    assert 0.0 <= d * d;
    assert d * d == m * m - 100.0 * m + 2500.0;
  }

  lemma DivideInequality(a: real, b: real, n: real)
    requires n > 0.0 && a <= 100.0 * b
    ensures a / n <= 100.0 * (b / n) && (a / n == 100.0 * (b / n) <==> a == 100.0 * b)
  {
    assert 100.0 * (b / n) == (100.0 * b) / n;
    TimesQuotient(a, n);
    TimesQuotient(100.0 * b, n);
  }

  /**
   Percentages with mean m vary by at most m * (100 - m), exactly that when all are 0 or 100, and never by more than 50
   squared.
   */
  lemma VarianceBound(s: seq<real>)
    requires InRange(s, 0.0, 100.0)
    ensures Variance(s) <= Spread(Mean(s)) <= 2500.0
    ensures Variance(s) == Spread(Mean(s)) <==> AllExtreme(s)
  {
    ProductBound(Mean(s));
    if s != [] {
      VarianceIsMeanSquareLessSquaredMean(s);
      SquaresBelowScaledSum(s);
      DivideInequality(SumOfSquares(s), Sum(s), |s| as real);
    }
  }

  lemma {:induction false} DeviationsNonNegative(s: seq<real>, m: real)
    ensures 0.0 <= Deviations(s, m)
    ensures Deviations(s, m) == 0.0 <==> forall i :: 0 <= i < |s| ==> s[i] == m
  {
    if s != [] {
      var t, d := s[..|s| - 1], s[|s| - 1] - m;
      DeviationsNonNegative(t, m);
      SquareIsZeroIff(d);
      if forall i :: 0 <= i < |t| ==> t[i] == m {
        assert forall i :: 0 <= i < |t| ==> s[i] == t[i];
      } else {
        var i :| 0 <= i < |t| && t[i] != m;
        assert s[i] == t[i];
      }
    }
  }

  lemma SquareIsZeroIff(d: real)
    ensures 0.0 <= Square(d) && (Square(d) == 0.0 <==> d == 0.0)
  {
    if d != 0.0 {
      assert (d * d) / d == d;
    }
  }

  lemma {:induction false} SumOfEqual(s: seq<real>, v: real)
    requires forall i :: 0 <= i < |s| ==> s[i] == v
    ensures Sum(s) == v * |s| as real
  {
    if s != [] {
      SumOfEqual(s[..|s| - 1], v);
      assert v * |s| as real == v * (|s| - 1) as real + v;
    }
  }

  lemma QuotientIsZeroIff(a: real, n: real)
    requires n > 0.0 && 0.0 <= a
    ensures 0.0 <= a / n && (a / n == 0.0 <==> a == 0.0)
  {
    assert a == (a / n) * n;
  }

  /** The imbalance is zero exactly when all utilisations are equal. */
  lemma VarianceIsZeroIff(s: seq<real>)
    ensures 0.0 <= Variance(s) && (Variance(s) == 0.0 <==> AllEqual(s))
  {
    if s != [] {
      DeviationsNonNegative(s, Mean(s));
      QuotientIsZeroIff(Deviations(s, Mean(s)), |s| as real);
      if AllEqual(s) {
        SumOfEqual(s, s[0]);
        assert s[0] * |s| as real / |s| as real == s[0];
      }
    }
  }

  // ---- The fleet ----

  predicate HasCpu(node: Node) {
    node.capacity.cpu > 0.0
  }

  /** CPU utilisation in percent of a node that has CPU. */
  function Utilization(node: Node): real
    requires HasCpu(node)
  {
    node.usage.cpu / node.capacity.cpu * 100.0
  }

  /** Utilisations of the nodes that have CPU, in edge-id order. */
  function Utilizations(nodes: seq<Node>): (r: seq<real>)
    ensures |r| <= |nodes|
  {
    if nodes == [] then []
    else
      var last := nodes[|nodes| - 1];
      Utilizations(nodes[..|nodes| - 1]) + if HasCpu(last) then [Utilization(last)] else []
  }

  lemma UtilizationInRange(node: Node)
    requires HasCpu(node) && node.Within()
    ensures 0.0 <= Utilization(node) <= 100.0
  {
    QuotientBetween(node.usage.cpu, node.capacity.cpu);
  }

  lemma QuotientBetween(u: real, c: real)
    requires 0.0 <= u <= c && 0.0 < c
    ensures 0.0 <= u / c <= 1.0
  {
  }

  lemma {:induction false} UtilizationsInRange(nodes: seq<Node>)
    requires forall i :: 0 <= i < |nodes| ==> nodes[i].Within()
    ensures InRange(Utilizations(nodes), 0.0, 100.0)
  {
    if nodes != [] {
      UtilizationsInRange(nodes[..|nodes| - 1]);
      var last := nodes[|nodes| - 1];
      if HasCpu(last) {
        UtilizationInRange(last);
      }
    }
  }

  /** Without overcommit the load imbalance is at most mean * (100 - mean), so the deviation is at most 50. */
  lemma LoadImbalanceBound(nodes: seq<Node>)
    requires forall i :: 0 <= i < |nodes| ==> nodes[i].Within()
    ensures 0.0 <= Variance(Utilizations(nodes)) <= Spread(Mean(Utilizations(nodes))) <= 2500.0
    ensures Variance(Utilizations(nodes)) == Spread(Mean(Utilizations(nodes))) <==> AllExtreme(Utilizations(nodes))
  {
    UtilizationsInRange(nodes);
    VarianceBound(Utilizations(nodes));
    VarianceIsZeroIff(Utilizations(nodes));
  }

  // ---- The average in terms of usage and capacity ----

  /** Node i has CPU and uses parts[i] of it. */
  predicate UsesPart(node: Node, part: real) {
    node.capacity.cpu > 0.0 && node.usage.cpu == part * node.capacity.cpu
  }

  predicate UseParts(fleet: seq<Node>, parts: seq<real>) {
    |parts| == |fleet| && forall i :: 0 <= i < |fleet| ==> UsesPart(fleet[i], parts[i])
  }

  lemma PercentOfPart(node: Node, part: real)
    requires UsesPart(node, part)
    ensures Utilization(node) == 100.0 * part
  {
    QuotientOf(node.usage.cpu, part, node.capacity.cpu);
  }

  lemma SumWithLast(s: seq<real>, x: real)
    ensures Sum(s + [x]) == Sum(s) + x
  {
    assert (s + [x])[..|s|] == s;
  }

  lemma {:induction false} PercentagesOfParts(fleet: seq<Node>, parts: seq<real>)
    requires UseParts(fleet, parts)
    ensures |Utilizations(fleet)| == |fleet| && Sum(Utilizations(fleet)) == 100.0 * Sum(parts)
  {
    if fleet != [] {
      var k := |fleet| - 1;
      PercentagesOfParts(fleet[..k], parts[..k]);
      PercentOfPart(fleet[k], parts[k]);
      SumWithLast(Utilizations(fleet[..k]), Utilization(fleet[k]));
    }
  }

  lemma HundredTimesQuotient(a: real, n: real)
    requires n > 0.0
    ensures (100.0 * a) / n == 100.0 * (a / n)
  {
  }

  /** Where every node has CPU the average is the mean of the parts in use, in percent. */
  lemma AverageOfParts(fleet: seq<Node>, parts: seq<real>)
    requires UseParts(fleet, parts)
    ensures Mean(Utilizations(fleet)) == 100.0 * Mean(parts)
  {
    PercentagesOfParts(fleet, parts);
    if fleet != [] {
      HundredTimesQuotient(Sum(parts), |fleet| as real);
    }
  }

  /** Every node that has CPU uses this part of it. */
  predicate AllUse(fleet: seq<Node>, part: real) {
    forall i :: 0 <= i < |fleet| && fleet[i].capacity.cpu > 0.0 ==> UsesPart(fleet[i], part)
  }

  predicate SomeCpu(fleet: seq<Node>) {
    exists i :: 0 <= i < |fleet| && fleet[i].capacity.cpu > 0.0
  }

  lemma {:induction false} PercentagesOfEvenUse(fleet: seq<Node>, part: real)
    requires AllUse(fleet, part)
    ensures forall i :: 0 <= i < |Utilizations(fleet)| ==> Utilizations(fleet)[i] == 100.0 * part
    ensures Utilizations(fleet) == [] <==> !SomeCpu(fleet)
  {
    if fleet != [] {
      var k := |fleet| - 1;
      PercentagesOfEvenUse(fleet[..k], part);
      if HasCpu(fleet[k]) {
        PercentOfPart(fleet[k], part);
      } else {
        assert SomeCpu(fleet) <==> SomeCpu(fleet[..k]);
      }
    }
  }

  lemma EvenMean(s: seq<real>, v: real)
    requires s != [] && forall i :: 0 <= i < |s| ==> s[i] == v
    ensures Mean(s) == v
  {
    SumOfEqual(s, v);
    QuotientOf(Sum(s), v, |s| as real);
  }

  /** If all nodes with CPU use the same part of it, that is the average: 0 of an idle fleet and 100 of a full one. */
  lemma AverageOfEvenUse(fleet: seq<Node>, part: real)
    requires AllUse(fleet, part)
    ensures Mean(Utilizations(fleet)) == if SomeCpu(fleet) then 100.0 * part else 0.0
  {
    PercentagesOfEvenUse(fleet, part);
    if SomeCpu(fleet) {
      EvenMean(Utilizations(fleet), 100.0 * part);
    }
  }

  /** The CPU in use on all nodes. */
  function UsedCpu(fleet: seq<Node>): real {
    if fleet == [] then 0.0 else UsedCpu(fleet[..|fleet| - 1]) + fleet[|fleet| - 1].usage.cpu
  }

  /** The CPU all nodes have. */
  function TotalCpu(fleet: seq<Node>): real {
    if fleet == [] then 0.0 else TotalCpu(fleet[..|fleet| - 1]) + fleet[|fleet| - 1].capacity.cpu
  }

  predicate SameCpu(fleet: seq<Node>, c: real) {
    c > 0.0 && forall i :: 0 <= i < |fleet| ==> fleet[i].capacity.cpu == c
  }

  lemma PartOf(used: real, c: real) returns (part: real)
    requires c > 0.0
    ensures used == part * c
  {
    part := used / c;
  }

  lemma AddParts(sum: real, part: real, c: real, total: real, used: real)
    ensures sum * c == total && used == part * c ==> (sum + part) * c == total + used
  {
  }

  lemma UsePartsNext(fleet: seq<Node>, before: seq<real>, part: real)
    requires fleet != [] && UseParts(fleet[..|fleet| - 1], before) && UsesPart(fleet[|fleet| - 1], part)
    ensures UseParts(fleet, before + [part])
  {
  }

  lemma PartsSumNext(before: seq<real>, part: real, c: real, total: real, used: real)
    requires Sum(before) * c == total && used == part * c
    ensures Sum(before + [part]) * c == total + used
  {
    SumWithLast(before, part);
    AddParts(Sum(before), part, c, total, used);
  }

  lemma {:induction false} PartsOfSameCpu(fleet: seq<Node>, c: real) returns (parts: seq<real>)
    requires SameCpu(fleet, c)
    ensures UseParts(fleet, parts) && Sum(parts) * c == UsedCpu(fleet)
  {
    parts := [];
    if fleet != [] {
      var t, used := fleet[..|fleet| - 1], fleet[|fleet| - 1].usage.cpu;
      var before := PartsOfSameCpu(t, c);
      var part := PartOf(used, c);
      parts := before + [part];
      UsePartsNext(fleet, before, part);
      PartsSumNext(before, part, c, UsedCpu(t), used);
    }
  }

  lemma PartOfTotal(sum: real, part: real, n: real, c: real, used: real)
    requires n > 0.0 && c > 0.0
    ensures sum * c == used && used == part * (n * c) ==> sum / n == part
  {
    if sum * c == part * (n * c) {
      Regroup(part, n, c);
      CancelFactor(sum, part * n, c);
      QuotientOf(sum, part, n);
    }
  }

  lemma Regroup(m: real, n: real, c: real)
    ensures m * (n * c) == (m * n) * c
  {
  }

  lemma CancelFactor(a: real, b: real, c: real)
    requires c > 0.0 && a * c == b * c
    ensures a == b
  {
  }

  lemma MeanOfPart(parts: seq<real>, part: real, n: real)
    requires parts != [] && n == |parts| as real && Sum(parts) / n == part
    ensures Mean(parts) == part
  {
  }

  /** The nodes' parts have the part of the total as their mean. */
  lemma PartsOfTotal(fleet: seq<Node>, c: real, n: real, part: real) returns (parts: seq<real>)
    requires fleet != [] && SameCpu(fleet, c) && n == |fleet| as real && UsedCpu(fleet) == part * (n * c)
    ensures UseParts(fleet, parts) && Mean(parts) == part
  {
    parts := PartsOfSameCpu(fleet, c);
    PartOfTotal(Sum(parts), part, n, c, UsedCpu(fleet));
    MeanOfPart(parts, part, n);
  }

  lemma OneMoreTime(n: real, c: real)
    ensures (n + 1.0) * c == n * c + c
  {
  }

  lemma {:induction false} TotalOfSameCpu(fleet: seq<Node>, c: real)
    requires SameCpu(fleet, c)
    ensures TotalCpu(fleet) == |fleet| as real * c && (fleet != [] ==> TotalCpu(fleet) > 0.0)
  {
    if fleet != [] {
      TotalOfSameCpu(fleet[..|fleet| - 1], c);
      OneMoreTime(|fleet[..|fleet| - 1]| as real, c);
    }
  }

  lemma PartsOfSameFleet(fleet: seq<Node>, c: real, part: real) returns (parts: seq<real>)
    requires fleet != [] && SameCpu(fleet, c) && UsedCpu(fleet) == part * TotalCpu(fleet)
    ensures UseParts(fleet, parts) && Mean(parts) == part
  {
    TotalOfSameCpu(fleet, c);
    parts := PartsOfTotal(fleet, c, |fleet| as real, part);
  }

  /** Where all nodes have the same CPU the average is the used part of all of it, in percent. */
  lemma AverageOfSameCpu(fleet: seq<Node>, c: real, part: real)
    requires fleet != [] && SameCpu(fleet, c) && UsedCpu(fleet) == part * TotalCpu(fleet)
    ensures Mean(Utilizations(fleet)) == 100.0 * part
  {
    var parts := PartsOfSameFleet(fleet, c, part);
    AverageOfParts(fleet, parts);
  }

  lemma AverageIsAPart(fleet: seq<Node>, c: real) returns (part: real)
    requires fleet != [] && SameCpu(fleet, c)
    ensures TotalCpu(fleet) > 0.0 && UsedCpu(fleet) == part * TotalCpu(fleet)
    ensures Mean(Utilizations(fleet)) == 100.0 * part
  {
    TotalOfSameCpu(fleet, c);
    part := PartOf(UsedCpu(fleet), TotalCpu(fleet));
    AverageOfSameCpu(fleet, c, part);
  }

  /** What the accumulating loop adds for node i. */
  lemma NextNode(fleet: seq<Node>, i: nat)
    requires i < |fleet|
    ensures var before, after := Utilizations(fleet[..i]), Utilizations(fleet[..i + 1]);
      if HasCpu(fleet[i]) then after == before + [Utilization(fleet[i])]
        && Sum(after) == Sum(before) + Utilization(fleet[i])
      else after == before
  {
    assert fleet[..i + 1][..i] == fleet[..i];
    var before := Utilizations(fleet[..i]);
    if HasCpu(fleet[i]) {
      assert (before + [Utilization(fleet[i])])[..|before|] == before;
    }
  }

  method CalculateAverageCpuUtilization(nodes: seq<EdgeNode>) returns (average: real)
    ensures average == Mean(Utilizations(Fleet(nodes)))
    ensures forall parts :: UseParts(Fleet(nodes), parts) ==> average == 100.0 * Mean(parts)
    ensures forall part :: AllUse(Fleet(nodes), part) ==>
      average == if SomeCpu(Fleet(nodes)) then 100.0 * part else 0.0
  {
    average := MeanCpu(nodes);
    forall part | AllUse(Fleet(nodes), part)
      ensures average == if SomeCpu(Fleet(nodes)) then 100.0 * part else 0.0
    {
      AverageOfEvenUse(Fleet(nodes), part);
    }
    forall parts | UseParts(Fleet(nodes), parts) ensures average == 100.0 * Mean(parts) {
      AverageOfParts(Fleet(nodes), parts);
    }
  }

  /** The loop over the nodes. */
  method MeanCpu(nodes: seq<EdgeNode>) returns (average: real)
    ensures average == Mean(Utilizations(Fleet(nodes)))
  {
    if nodes == [] {
      return 0.0;
    }
    ghost var fleet := Fleet(nodes);
    var total, counted := 0.0, 0;
    var i := 0;
    while i < |nodes|
      invariant 0 <= i <= |nodes|
      invariant total == Sum(Utilizations(fleet[..i])) && counted == |Utilizations(fleet[..i])|
    {
      NextNode(fleet, i);
      if nodes[i].capacity.cpu > 0.0 {
        total := total + Utilization(nodes[i].View());
        counted := counted + 1;
      }
      i := i + 1;
    }
    assert fleet[..i] == fleet;
    if counted == 0 {
      return 0.0;
    }
    average := total / counted as real;
  }

  /** The square of the reported deviation; fewer than two utilisations count as balanced. */
  method CalculateLoadImbalance(nodes: seq<EdgeNode>) returns (variance: real)
    ensures variance == Variance(Utilizations(Fleet(nodes)))
  {
    if nodes == [] {
      return 0.0;
    }
    var utilizations := GatherUtilizations(nodes);
    if |utilizations| < 2 {
      VarianceIsZeroIff(utilizations);
      return 0.0;
    }
    var sum := 0.0;
    for i := 0 to |utilizations|
      invariant sum == Sum(utilizations[..i])
    {
      assert utilizations[..i + 1][..i] == utilizations[..i];
      sum := sum + utilizations[i];
    }
    assert utilizations[..|utilizations|] == utilizations;
    var mean := sum / |utilizations| as real;
    var squaredDiffSum := 0.0;
    for i := 0 to |utilizations|
      invariant squaredDiffSum == Deviations(utilizations[..i], mean)
    {
      assert utilizations[..i + 1][..i] == utilizations[..i];
      var diff := utilizations[i] - mean;
      squaredDiffSum := squaredDiffSum + Square(diff);
    }
    variance := squaredDiffSum / |utilizations| as real;
  }

  method GatherUtilizations(nodes: seq<EdgeNode>) returns (utilizations: seq<real>)
    ensures utilizations == Utilizations(Fleet(nodes))
  {
    utilizations := [];
    ghost var fleet := Fleet(nodes);
    for i := 0 to |nodes|
      invariant utilizations == Utilizations(fleet[..i])
    {
      NextNode(fleet, i);
      if nodes[i].capacity.cpu > 0.0 {
        utilizations := utilizations + [Utilization(nodes[i].View())];
      }
    }
    assert fleet[..|nodes|] == fleet;
  }
}
