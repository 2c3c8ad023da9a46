/** Round-robin fairness over consecutive allocations, with the index's wrap-around (resource_allocator.cpp). */
module RoundRobinFairness {
  import opened Tasks
  import opened EdgeNodes
  import opened Allocation

  /** The position in the viable list taken by the j-th allocation after index r. */
  function Position(r: nat, n: nat, j: nat): (p: nat)
    requires n > 0
    ensures p < n
  {
    ((r + j) % SIZE_LIMIT) % n
  }

  /** How many of the next m allocations take position p. */
  function Hits(r: nat, n: nat, m: nat, p: nat): nat
    requires n > 0
  {
    if m == 0 then 0 else Hits(r, n, m - 1, p) + (if Position(r, n, m - 1) == p then 1 else 0)
  }

  // ---- Remainders ----

  lemma NonZeroMultiple(n: int, d: int)
    requires n > 0 && d != 0
    ensures n * d >= n || n * d <= -n
  {
  }

  lemma RemainderUnique(x: nat, n: nat, q: int, p: nat)
    requires n > 0 && p < n && x == n * q + p
    ensures x % n == p
  {
    var d := q - x / n;
    assert n * d == x % n - p;
    if d != 0 {
      NonZeroMultiple(n, d);
    }
  }

  lemma NextRemainder(x: nat, n: nat)
    requires n > 0
    ensures (x + 1) % n == (if x % n == n - 1 then 0 else x % n + 1)
  {
    if x % n == n - 1 {
      assert x + 1 == n * (x / n + 1);
      RemainderUnique(x + 1, n, x / n + 1, 0);
    } else {
      RemainderUnique(x + 1, n, x / n, x % n + 1);
    }
  }

  lemma RemainderThroughMultiple(x: nat, w: nat, n: nat)
    requires n > 0 && w > 0 && w % n == 0
    ensures (x % w) % n == x % n
  {
    var a, b, c := w / n, x / w, (x % w) / n;
    assert x == (n * a) * b + (n * c + (x % w) % n);
    assert x == n * (a * b + c) + (x % w) % n;
    RemainderUnique(x, n, a * b + c, (x % w) % n);
  }

  // ---- Counting hits ----

  lemma {:induction false} HitsWitness(r: nat, n: nat, m: nat, p: nat) returns (j: nat)
    requires n > 0 && Hits(r, n, m, p) > 0
    ensures j < m && Position(r, n, j) == p
  {
    if Position(r, n, m - 1) == p {
      j := m - 1;
    } else {
      j := HitsWitness(r, n, m - 1, p);
    }
  }

  lemma {:induction false} TwoHits(r: nat, n: nat, m: nat, p: nat, i: nat, j: nat)
    requires n > 0 && i < j < m && Position(r, n, i) == p && Position(r, n, j) == p
    ensures Hits(r, n, m, p) >= 2
    decreases m
  {
    if j < m - 1 {
      TwoHits(r, n, m - 1, p, i, j);
    } else {
      OneHit(r, n, m - 1, p, i);
    }
  }

  lemma {:induction false} OneHit(r: nat, n: nat, m: nat, p: nat, i: nat)
    requires n > 0 && i < m && Position(r, n, i) == p
    ensures Hits(r, n, m, p) >= 1
  {
    if i < m - 1 {
      OneHit(r, n, m - 1, p, i);
    }
  }

  /** Positions advance by one, cyclically: no wrap in sight, or a wrap that the cycle divides. */
  ghost predicate Cyclic(r: nat, n: nat, m: nat)
    requires n > 0
  {
    forall j :: 0 <= j < m - 1 ==>
      Position(r, n, j + 1) == (if Position(r, n, j) == n - 1 then 0 else Position(r, n, j) + 1)
  }

  lemma StepWithoutWrap(r: nat, n: nat, j: nat)
    requires n > 0 && r + j + 1 < SIZE_LIMIT
    ensures Position(r, n, j + 1) == (if Position(r, n, j) == n - 1 then 0 else Position(r, n, j) + 1)
  {
    SmallRemainder(r + j, SIZE_LIMIT);
    SmallRemainder(r + j + 1, SIZE_LIMIT);
    NextRemainder(r + j, n);
  }

  lemma StepWithDivisor(r: nat, n: nat, j: nat)
    requires n > 0 && SIZE_LIMIT % n == 0
    ensures Position(r, n, j + 1) == (if Position(r, n, j) == n - 1 then 0 else Position(r, n, j) + 1)
  {
    RemainderThroughMultiple(r + j, SIZE_LIMIT, n);
    RemainderThroughMultiple(r + j + 1, SIZE_LIMIT, n);
    NextRemainder(r + j, n);
  }

  lemma NoBadWrapIsCyclic(r: nat, n: nat, m: nat)
    requires n > 0 && r < SIZE_LIMIT
    requires r + m <= SIZE_LIMIT || SIZE_LIMIT % n == 0
    ensures Cyclic(r, n, m)
  {
    forall j | 0 <= j < m - 1
      ensures Position(r, n, j + 1) == (if Position(r, n, j) == n - 1 then 0 else Position(r, n, j) + 1)
    {
      if r + m <= SIZE_LIMIT {
        StepWithoutWrap(r, n, j);
      } else {
        StepWithDivisor(r, n, j);
      }
    }
  }

  /** The position k steps after position f, for k below n. */
  function PositionAfter(f: nat, n: nat, k: nat): int {
    if f + k >= n then f + k - n else f + k
  }

  /** Hits on p in a number of full turns and the rest of one, starting at position f. */
  function ExpectedHits(f: nat, n: nat, p: nat, turns: nat, rest: nat): nat {
    turns + if (if p >= f then p - f else p + n - f) < rest then 1 else 0
  }

  lemma ExpectedNext(f: nat, n: nat, p: nat, turns: nat, rest: nat)
    requires f < n && p < n && rest < n
    ensures ExpectedHits(f, n, p, turns, rest) + (if PositionAfter(f, n, rest) == p then 1 else 0)
      == if rest + 1 < n then ExpectedHits(f, n, p, turns, rest + 1) else ExpectedHits(f, n, p, turns + 1, 0)
  {
  }

  /** The number of turns and the rest one step earlier. */
  lemma OneStepEarlier(n: nat, m: nat, turns: nat, rest: nat) returns (turns': nat, rest': nat)
    requires n > 0 && m > 0 && m == n * turns + rest && rest < n
    ensures m - 1 == n * turns' + rest' && rest' < n
    ensures rest > 0 ==> turns' == turns && rest' == rest - 1
    ensures rest == 0 ==> turns > 0 && turns' == turns - 1 && rest' == n - 1
  {
    if rest > 0 {
      turns', rest' := turns, rest - 1;
    } else {
      assert turns > 0;
      turns', rest' := turns - 1, n - 1;
      assert n * turns == n * turns' + n;
    }
  }

  lemma {:induction false} CyclicPosition(r: nat, n: nat, m: nat, turns: nat, rest: nat)
    requires n > 0 && Cyclic(r, n, m + 1) && m == n * turns + rest && rest < n
    ensures Position(r, n, m) == PositionAfter(Position(r, n, 0), n, rest)
    decreases m
  {
    if m > 0 {
      var turns', rest' := OneStepEarlier(n, m, turns, rest);
      CyclicPosition(r, n, m - 1, turns', rest');
      assert Position(r, n, m - 1 + 1) == (if Position(r, n, m - 1) == n - 1 then 0 else Position(r, n, m - 1) + 1);
    } else {
      NoStepsYet(n, turns, rest);
    }
  }

  lemma NoStepsYet(n: nat, turns: nat, rest: nat)
    requires n > 0 && 0 == n * turns + rest
    ensures turns == 0 && rest == 0
  {
  }

  /** In a cyclic stretch position p is hit once per full turn, plus once if the rest of a turn reaches it. */
  lemma {:induction false} CyclicHits(r: nat, n: nat, m: nat, p: nat, turns: nat, rest: nat)
    requires n > 0 && p < n && Cyclic(r, n, m) && m == n * turns + rest && rest < n
    ensures Hits(r, n, m, p) == ExpectedHits(Position(r, n, 0), n, p, turns, rest)
    decreases m
  {
    if m > 0 {
      var turns', rest' := OneStepEarlier(n, m, turns, rest);
      CyclicHits(r, n, m - 1, p, turns', rest');
      CyclicPosition(r, n, m - 1, turns', rest');
      ExpectedNext(Position(r, n, 0), n, p, turns', rest');
    } else {
      NoStepsYet(n, turns, rest);
    }
  }

  lemma CycleIsExact(r: nat, n: nat, p: nat)
    requires n > 0 && p < n && r < SIZE_LIMIT
    requires r + n <= SIZE_LIMIT || SIZE_LIMIT % n == 0
    ensures Hits(r, n, n, p) == 1
  {
    NoBadWrapIsCyclic(r, n, n);
    CyclicHits(r, n, n, p, 1, 0);
  }

  /** After the wrap positions restart at zero, so the last position is not reached within the cycle. */
  lemma LastPositionBeforeWrap(r: nat, n: nat, j: nat)
    requires n > 0 && r < SIZE_LIMIT < r + n && j < n && Position(r, n, j) == n - 1
    ensures r + j < SIZE_LIMIT
  {
    if r + j >= SIZE_LIMIT {
      var x := r + j - SIZE_LIMIT;
      RemainderUnique(r + j, SIZE_LIMIT, 1, x);
      SmallRemainder(x, n);
    }
  }

  lemma WrapPosition(r: nat, n: nat, wrap: nat)
    requires n > 0 && r + wrap == SIZE_LIMIT
    ensures Position(r, n, wrap) == 0
  {
    SmallRemainder(0, n);
  }

  /** A cycle that crosses the wrap hits every position once only if the number of positions divides 2^64. */
  lemma CrossingCycleNeedsDivisor(r: nat, n: nat)
    requires n > 0 && r < SIZE_LIMIT < r + n
    requires forall p :: 0 <= p < n ==> Hits(r, n, n, p) == 1
    ensures SIZE_LIMIT % n == 0
  {
    assert Hits(r, n, n, n - 1) == 1;
    var j := HitsWitness(r, n, n, n - 1);
    LastPositionBeforeWrap(r, n, j);
    SmallRemainder(r + j, SIZE_LIMIT);
    NextRemainder(r + j, n);
    if r + j + 1 < SIZE_LIMIT {
      SmallRemainder(r + j + 1, SIZE_LIMIT);
      WrapPosition(r, n, SIZE_LIMIT - r);
      assert Hits(r, n, n, 0) == 1;
      TwoHits(r, n, n, 0, j + 1, SIZE_LIMIT - r);
    }
  }

  lemma SmallRemainder(x: nat, n: nat)
    requires x < n
    ensures x % n == x
  {
  }

  // ---- Allocations ----

  datatype Request = Request(fleet: seq<Node>, req: Requirements)

  /** The nodes consecutive requests are given. */
  function Choices(a: AllocatorState, rs: seq<Request>): seq<Option<nat>>
    decreases |rs|
  {
    if rs == [] then []
    else
      var o := Attempt(a, rs[0].fleet, rs[0].req);
      [o.node] + Choices(o.allocator, rs[1..])
  }

  ghost predicate SameViable(rs: seq<Request>, v: seq<nat>) {
    forall k :: 0 <= k < |rs| ==> Viable(rs[k].fleet, rs[k].req.demand) == v
  }

  ghost predicate Rotating(a: AllocatorState, v: seq<nat>, rs: seq<Request>) {
    && a.strategy == RoundRobin && a.roundRobin < SIZE_LIMIT
    && v != [] && SameViable(rs, v)
  }

  /** Starting t allocations later shifts the positions by t. */
  lemma ShiftedPosition(r: nat, n: nat, t: nat, j: nat)
    requires n > 0
    ensures Position((r + t) % SIZE_LIMIT, n, j) == Position(r, n, t + j)
  {
    assert ((r + t) % SIZE_LIMIT + j) % SIZE_LIMIT == (r + (t + j)) % SIZE_LIMIT;
  }

  lemma OneChoice(a: AllocatorState, v: seq<nat>, r: Request)
    requires a.strategy == RoundRobin && a.roundRobin < SIZE_LIMIT && v != [] && Viable(r.fleet, r.req.demand) == v
    ensures var o := Attempt(a, r.fleet, r.req);
      o.node == Some(v[Position(a.roundRobin, |v|, 0)])
        && o.allocator == a.(roundRobin := (a.roundRobin + 1) % SIZE_LIMIT)
  {
    assert (a.roundRobin + 0) % SIZE_LIMIT == a.roundRobin;
  }

  /** As every list of viable nodes is. */
  ghost predicate Increasing(v: seq<nat>) {
    forall i, j :: 0 <= i < j < |v| ==> v[i] < v[j]
  }

  lemma RotatingIsIncreasing(a: AllocatorState, v: seq<nat>, rs: seq<Request>)
    requires Rotating(a, v, rs) && rs != []
    ensures Increasing(v)
  {
    assert Viable(rs[0].fleet, rs[0].req.demand) == v;
  }

  /** The choices walk through v from index r. */
  ghost predicate Follows(cs: seq<Option<nat>>, v: seq<nat>, r: nat)
    requires v != []
  {
    forall j :: 0 <= j < |cs| ==> cs[j] == Some(v[Position(r, |v|, j)])
  }

  lemma FollowsCons(c: Option<nat>, cs: seq<Option<nat>>, v: seq<nat>, r: nat, r': nat)
    requires v != [] && c == Some(v[Position(r, |v|, 0)]) && r' == (r + 1) % SIZE_LIMIT && Follows(cs, v, r')
    ensures Follows([c] + cs, v, r)
  {
    forall j | 0 <= j < |[c] + cs| ensures ([c] + cs)[j] == Some(v[Position(r, |v|, j)]) {
      if j > 0 {
        ShiftedPosition(r, |v|, 1, j - 1);
      }
    }
  }

  lemma FollowsWindow(cs: seq<Option<nat>>, v: seq<nat>, r: nat, t: nat, window: seq<Option<nat>>, r': nat)
    requires v != [] && Follows(cs, v, r)
    requires t + |window| <= |cs| && window == cs[t..t + |window|] && r' == (r + t) % SIZE_LIMIT
    ensures Follows(window, v, r')
  {
    forall j | 0 <= j < |window| ensures window[j] == Some(v[Position(r', |v|, j)]) {
      ShiftedPosition(r, |v|, t, j);
    }
  }

  lemma ChoicesUnfold(a: AllocatorState, v: seq<nat>, rs: seq<Request>, next: AllocatorState)
    requires Rotating(a, v, rs) && rs != [] && next == a.(roundRobin := (a.roundRobin + 1) % SIZE_LIMIT)
    ensures Choices(a, rs) == [Some(v[Position(a.roundRobin, |v|, 0)])] + Choices(next, rs[1..])
    ensures Rotating(next, v, rs[1..])
  {
    OneChoice(a, v, rs[0]);
  }

  lemma {:induction false} ChoicesFollowPositions(a: AllocatorState, v: seq<nat>, rs: seq<Request>)
    requires Rotating(a, v, rs)
    ensures |Choices(a, rs)| == |rs| && Follows(Choices(a, rs), v, a.roundRobin)
    decreases |rs|
  {
    if rs == [] {
      assert Choices(a, rs) == [];
    } else {
      var next := a.(roundRobin := (a.roundRobin + 1) % SIZE_LIMIT);
      ChoicesUnfold(a, v, rs, next);
      ChoicesFollowPositions(next, v, rs[1..]);
      FollowsCons(Some(v[Position(a.roundRobin, |v|, 0)]), Choices(next, rs[1..]), v, a.roundRobin, next.roundRobin);
    }
  }

  lemma CountLast<T>(cs: seq<T>, x: T)
    requires cs != []
    ensures multiset(cs)[x] == multiset(cs[..|cs| - 1])[x] + if cs[|cs| - 1] == x then 1 else 0
  {
    assert cs == cs[..|cs| - 1] + [cs[|cs| - 1]];
  }

  lemma SameElementIff(v: seq<nat>, p: nat, q: nat)
    requires p < |v| && q < |v| && Increasing(v)
    ensures Some(v[q]) == Some(v[p]) <==> q == p
  {
  }

  lemma {:induction false} CountIsHits(cs: seq<Option<nat>>, v: seq<nat>, r: nat, p: nat)
    requires p < |v| && Increasing(v)
    requires Follows(cs, v, r)
    ensures multiset(cs)[Some(v[p])] == Hits(r, |v|, |cs|, p)
  {
    if cs != [] {
      var m := |cs| - 1;
      CountIsHits(cs[..m], v, r, p);
      CountLast(cs, Some(v[p]));
      SameElementIff(v, p, Position(r, |v|, m));
    }
  }

  lemma WindowCount(cs: seq<Option<nat>>, v: seq<nat>, r: nat, t: nat, m: nat, p: nat, r': nat)
    requires p < |v| && Increasing(v) && Follows(cs, v, r) && t + m <= |cs| && r' == (r + t) % SIZE_LIMIT
    ensures multiset(cs[t..t + m])[Some(v[p])] == Hits(r', |v|, m, p)
  {
    FollowsWindow(cs, v, r, t, cs[t..t + m], r');
    CountIsHits(cs[t..t + m], v, r', p);
  }

  lemma CyclicHitsBalanced(r: nat, n: nat, m: nat, p: nat, q: nat)
    requires n > 0 && p < n && q < n && Cyclic(r, n, m)
    ensures Hits(r, n, m, p) <= Hits(r, n, m, q) + 1
  {
    CyclicHits(r, n, m, p, m / n, m % n);
    CyclicHits(r, n, m, q, m / n, m % n);
  }

  /** The n allocations from the t-th on give each of the n viable nodes exactly one task. */
  ghost predicate CycleExact(cs: seq<Option<nat>>, v: seq<nat>, t: nat)
    requires t + |v| <= |cs|
  {
    forall p :: 0 <= p < |v| ==> multiset(cs[t..t + |v|])[Some(v[p])] == 1
  }

  ghost predicate EveryCycleExact(cs: seq<Option<nat>>, v: seq<nat>) {
    forall t :: 0 <= t <= |cs| - |v| ==> CycleExact(cs, v, t)
  }

  lemma WindowStart(r: nat, t: nat, n: nat, m: nat, r': nat)
    requires r + m <= SIZE_LIMIT && n > 0 && t + n <= m && r' == (r + t) % SIZE_LIMIT
    ensures r' + n <= SIZE_LIMIT
  {
    SmallRemainder(r + t, SIZE_LIMIT);
  }

  lemma WindowHitsOnce(cs: seq<Option<nat>>, v: seq<nat>, r: nat, t: nat, p: nat, r': nat)
    requires p < |v| && Increasing(v) && Follows(cs, v, r) && t + |v| <= |cs| && r' == (r + t) % SIZE_LIMIT
    requires r' + |v| <= SIZE_LIMIT || SIZE_LIMIT % |v| == 0
    ensures multiset(cs[t..t + |v|])[Some(v[p])] == 1
  {
    CycleIsExact(r', |v|, p);
    WindowCount(cs, v, r, t, |v|, p, r');
  }

  lemma CycleExactWithoutBadWrap(cs: seq<Option<nat>>, v: seq<nat>, r: nat, t: nat, r': nat)
    requires v != [] && Increasing(v) && Follows(cs, v, r) && t + |v| <= |cs| && r' == (r + t) % SIZE_LIMIT
    requires r + |cs| <= SIZE_LIMIT || SIZE_LIMIT % |v| == 0
    ensures CycleExact(cs, v, t)
  {
    if r + |cs| <= SIZE_LIMIT {
      WindowStart(r, t, |v|, |cs|, r');
    }
    forall p | 0 <= p < |v| ensures multiset(cs[t..t + |v|])[Some(v[p])] == 1 {
      WindowHitsOnce(cs, v, r, t, p, r');
    }
  }

  lemma ExactWindowAcrossWrap(cs: seq<Option<nat>>, v: seq<nat>, r: nat, t: nat)
    requires v != [] && Increasing(v) && Follows(cs, v, r) && t + |v| <= |cs| && CycleExact(cs, v, t)
    requires r + t < SIZE_LIMIT < r + t + |v|
    ensures SIZE_LIMIT % |v| == 0
  {
    var start, n := r + t, |v|;
    SmallRemainder(start, SIZE_LIMIT);
    forall p | 0 <= p < n ensures Hits(start, n, n, p) == 1 {
      WindowCount(cs, v, r, t, n, p, start);
    }
    CrossingCycleNeedsDivisor(start, n);
  }

  lemma BadWrapIsSeen(cs: seq<Option<nat>>, v: seq<nat>, r: nat)
    requires v != [] && Increasing(v) && Follows(cs, v, r) && |v| <= |cs| && r < SIZE_LIMIT < r + |cs|
    requires EveryCycleExact(cs, v)
    ensures SIZE_LIMIT % |v| == 0
  {
    var n, m, last := |v|, |cs|, SIZE_LIMIT - 1 - r;
    if n > 1 {
      var t := if last <= m - n then last else m - n;
      assert CycleExact(cs, v, t);
      ExactWindowAcrossWrap(cs, v, r, t);
    }
  }

  lemma NoBadWrapIsExact(cs: seq<Option<nat>>, v: seq<nat>, r: nat)
    requires v != [] && Increasing(v) && Follows(cs, v, r)
    requires r + |cs| <= SIZE_LIMIT || SIZE_LIMIT % |v| == 0
    ensures EveryCycleExact(cs, v)
  {
    forall t | 0 <= t <= |cs| - |v| ensures CycleExact(cs, v, t) {
      CycleExactWithoutBadWrap(cs, v, r, t, (r + t) % SIZE_LIMIT);
    }
  }

  /** The exact condition for fairness: the index does not wrap during the run, or the number of nodes divides 2^64. */
  lemma {:induction false} EveryCycleExactIff(a: AllocatorState, v: seq<nat>, rs: seq<Request>)
    requires Rotating(a, v, rs) && |v| <= |rs|
    ensures |Choices(a, rs)| == |rs|
    ensures EveryCycleExact(Choices(a, rs), v) <==> a.roundRobin + |rs| <= SIZE_LIMIT || SIZE_LIMIT % |v| == 0
  {
    ChoicesFollowPositions(a, v, rs);
    RotatingIsIncreasing(a, v, rs);
    var cs := Choices(a, rs);
    if a.roundRobin + |rs| <= SIZE_LIMIT || SIZE_LIMIT % |v| == 0 {
      NoBadWrapIsExact(cs, v, a.roundRobin);
    } else if EveryCycleExact(cs, v) {
      BadWrapIsSeen(cs, v, a.roundRobin);
    }
  }

  // ---- Balance over every stretch of allocations ----

  /** How often any of the first k positions is taken. */
  function TotalHits(r: nat, n: nat, m: nat, k: nat): nat
    requires n > 0 && k <= n
  {
    if k == 0 then 0 else TotalHits(r, n, m, k - 1) + Hits(r, n, m, k - 1)
  }

  lemma {:induction false} TotalHitsNext(r: nat, n: nat, m: nat, k: nat)
    requires n > 0 && k <= n
    ensures TotalHits(r, n, m + 1, k) == TotalHits(r, n, m, k) + if Position(r, n, m) < k then 1 else 0
  {
    if k > 0 {
      TotalHitsNext(r, n, m, k - 1);
    }
  }

  lemma {:induction false} NoHitsYet(r: nat, n: nat, k: nat)
    requires n > 0 && k <= n
    ensures TotalHits(r, n, 0, k) == 0
  {
    if k > 0 {
      NoHitsYet(r, n, k - 1);
    }
  }

  /** Every allocation hits one position. */
  lemma {:induction false} TotalHitsIsLength(r: nat, n: nat, m: nat)
    requires n > 0
    ensures TotalHits(r, n, m, n) == m
  {
    if m == 0 {
      NoHitsYet(r, n, n);
    } else {
      TotalHitsIsLength(r, n, m - 1);
      TotalHitsNext(r, n, m - 1, n);
    }
  }

  ghost predicate HitsBalanced(r: nat, n: nat, m: nat)
    requires n > 0
  {
    forall p, q :: 0 <= p < n && 0 <= q < n ==> Hits(r, n, m, p) <= Hits(r, n, m, q) + 1
  }

  lemma {:induction false} TotalWithAMiss(r: nat, n: nat, m: nat, k: nat, miss: nat)
    requires n > 0 && k <= n && miss < n && HitsBalanced(r, n, m) && Hits(r, n, m, miss) == 0
    ensures TotalHits(r, n, m, k) <= k - if miss < k then 1 else 0
  {
    if k > 0 {
      TotalWithAMiss(r, n, m, k - 1, miss);
    }
  }

  lemma {:induction false} TotalWithADouble(r: nat, n: nat, m: nat, k: nat, double: nat)
    requires n > 0 && k <= n && double < n && HitsBalanced(r, n, m) && Hits(r, n, m, double) >= 2
    ensures TotalHits(r, n, m, k) >= k + if double < k then 1 else 0
  {
    if k > 0 {
      TotalWithADouble(r, n, m, k - 1, double);
    }
  }

  /** n allocations that hit n positions evenly hit each once. */
  lemma EvenMeansOnce(r: nat, n: nat, p: nat)
    requires p < n && HitsBalanced(r, n, n)
    ensures Hits(r, n, n, p) == 1
  {
    TotalHitsIsLength(r, n, n);
    if Hits(r, n, n, p) == 0 {
      TotalWithAMiss(r, n, n, n, p);
    } else if Hits(r, n, n, p) >= 2 {
      TotalWithADouble(r, n, n, n, p);
    }
  }

  /** Over the m allocations from the t-th on any two viable nodes' counts differ by at most one. */
  ghost predicate Balanced(cs: seq<Option<nat>>, v: seq<nat>, t: nat, m: nat)
    requires t + m <= |cs|
  {
    forall p, q :: 0 <= p < |v| && 0 <= q < |v| ==>
      multiset(cs[t..t + m])[Some(v[p])] <= multiset(cs[t..t + m])[Some(v[q])] + 1
  }

  ghost predicate AlwaysBalanced(cs: seq<Option<nat>>, v: seq<nat>) {
    forall t: nat, m: nat :: t + m <= |cs| ==> Balanced(cs, v, t, m)
  }

  lemma BalancedWithoutBadWrap(cs: seq<Option<nat>>, v: seq<nat>, r: nat, t: nat, m: nat, r': nat)
    requires v != [] && Increasing(v) && Follows(cs, v, r) && t + m <= |cs| && r' == (r + t) % SIZE_LIMIT
    requires r' + m <= SIZE_LIMIT || SIZE_LIMIT % |v| == 0
    ensures Balanced(cs, v, t, m)
  {
    NoBadWrapIsCyclic(r', |v|, m);
    forall p, q | 0 <= p < |v| && 0 <= q < |v|
      ensures multiset(cs[t..t + m])[Some(v[p])] <= multiset(cs[t..t + m])[Some(v[q])] + 1
    {
      WindowCount(cs, v, r, t, m, p, r');
      WindowCount(cs, v, r, t, m, q, r');
      CyclicHitsBalanced(r', |v|, m, p, q);
    }
  }

  lemma BalancedCycleIsExact(cs: seq<Option<nat>>, v: seq<nat>, r: nat, t: nat, r': nat)
    requires v != [] && Increasing(v) && Follows(cs, v, r) && t + |v| <= |cs| && r' == (r + t) % SIZE_LIMIT
    requires Balanced(cs, v, t, |v|)
    ensures CycleExact(cs, v, t)
  {
    var n := |v|;
    forall p, q | 0 <= p < n && 0 <= q < n ensures Hits(r', n, n, p) <= Hits(r', n, n, q) + 1 {
      WindowCount(cs, v, r, t, n, p, r');
      WindowCount(cs, v, r, t, n, q, r');
    }
    forall p | 0 <= p < n ensures multiset(cs[t..t + n])[Some(v[p])] == 1 {
      WindowCount(cs, v, r, t, n, p, r');
      EvenMeansOnce(r', n, p);
    }
  }

  lemma WindowEnd(r: nat, t: nat, m: nat, len: nat, r': nat)
    requires r + len <= SIZE_LIMIT && t + m <= len && r < SIZE_LIMIT && r' == (r + t) % SIZE_LIMIT
    ensures r' + m <= SIZE_LIMIT
  {
    if r + t < SIZE_LIMIT {
      SmallRemainder(r + t, SIZE_LIMIT);
    }
  }

  // ---- Runs shorter than one cycle ----

  lemma PositionBeforeWrap(r: nat, n: nat, j: nat, back: nat)
    requires n > 0 && back > 0 && r + j + back == SIZE_LIMIT && back <= SIZE_LIMIT % n
    ensures Position(r, n, j) == SIZE_LIMIT % n - back
  {
    SmallRemainder(r + j, SIZE_LIMIT);
    RemainderUnique(r + j, n, SIZE_LIMIT / n, SIZE_LIMIT % n - back);
  }

  lemma PositionAfterWrap(r: nat, n: nat, j: nat, past: nat)
    requires past < n && past < SIZE_LIMIT && r + j == SIZE_LIMIT + past
    ensures Position(r, n, j) == past
  {
    RemainderUnique(r + j, SIZE_LIMIT, 1, past);
    SmallRemainder(past, n);
  }

  lemma RemainderAtMost(n: nat)
    requires n > 0
    ensures SIZE_LIMIT % n < n && SIZE_LIMIT % n <= SIZE_LIMIT
  {
  }

  /** A run across the wrap that is no longer than the remainder of 2^64 visits no position twice. */
  lemma NoRepeatInShortRun(r: nat, n: nat, m: nat, i: nat, j: nat)
    requires n > 0 && r < SIZE_LIMIT < r + m && m <= SIZE_LIMIT % n && i < j < m
    ensures Position(r, n, i) != Position(r, n, j)
  {
    RemainderAtMost(n);
    var wrap := SIZE_LIMIT - r;
    if j < wrap {
      PositionBeforeWrap(r, n, i, wrap - i);
      PositionBeforeWrap(r, n, j, wrap - j);
    } else if i < wrap {
      PositionBeforeWrap(r, n, i, wrap - i);
      PositionAfterWrap(r, n, j, j - wrap);
    } else {
      PositionAfterWrap(r, n, i, i - wrap);
      PositionAfterWrap(r, n, j, j - wrap);
    }
  }

  /** A longer one does, unless the number of positions divides 2^64. */
  lemma RepeatInLongerRun(r: nat, n: nat, m: nat) returns (i: nat, j: nat)
    requires n > 0 && r < SIZE_LIMIT < r + m && 0 < SIZE_LIMIT % n < m
    ensures i < j < m && Position(r, n, i) == Position(r, n, j)
  {
    RemainderAtMost(n);
    var wrap, rest := SIZE_LIMIT - r, SIZE_LIMIT % n;
    if rest <= wrap {
      i, j := wrap - rest, wrap;
      PositionBeforeWrap(r, n, i, rest);
      PositionAfterWrap(r, n, j, 0);
    } else {
      i, j := 0, rest;
      PositionBeforeWrap(r, n, i, wrap);
      PositionAfterWrap(r, n, j, rest - wrap);
    }
  }

  lemma {:induction false} OnceAtMost<T>(s: seq<T>, x: T)
    requires forall i, j :: 0 <= i < j < |s| ==> s[i] != s[j]
    ensures multiset(s)[x] <= 1 && (x !in s ==> multiset(s)[x] == 0)
  {
    if s != [] {
      OnceAtMost(s[..|s| - 1], x);
      CountLast(s, x);
    }
  }

  lemma BalancedInShortRun(cs: seq<Option<nat>>, v: seq<nat>, r: nat, t: nat, m: nat)
    requires v != [] && Increasing(v) && Follows(cs, v, r) && t + m <= |cs|
    requires r < SIZE_LIMIT < r + |cs| && |cs| <= SIZE_LIMIT % |v|
    ensures Balanced(cs, v, t, m)
  {
    var window := cs[t..t + m];
    forall i, j | 0 <= i < j < |window| ensures window[i] != window[j] {
      NoRepeatInShortRun(r, |v|, |cs|, t + i, t + j);
      SameElementIff(v, Position(r, |v|, t + i), Position(r, |v|, t + j));
    }
    forall p, q | 0 <= p < |v| && 0 <= q < |v|
      ensures multiset(window)[Some(v[p])] <= multiset(window)[Some(v[q])] + 1
    {
      OnceAtMost(window, Some(v[p]));
    }
  }

  lemma RunCount(cs: seq<Option<nat>>, v: seq<nat>, r: nat, p: nat)
    requires p < |v| && Increasing(v) && Follows(cs, v, r) && r < SIZE_LIMIT
    ensures multiset(cs)[Some(v[p])] == Hits(r, |v|, |cs|, p)
  {
    SmallRemainder(r, SIZE_LIMIT);
    assert cs[0..0 + |cs|] == cs;
    WindowCount(cs, v, r, 0, |cs|, p, r);
  }

  lemma BalancedPair(cs: seq<Option<nat>>, v: seq<nat>, p: nat, q: nat)
    requires Balanced(cs, v, 0, |cs|) && p < |v| && q < |v|
    ensures multiset(cs)[Some(v[p])] <= multiset(cs)[Some(v[q])] + 1
  {
    assert cs[0..0 + |cs|] == cs;
  }

  lemma BalancedRunHits(cs: seq<Option<nat>>, v: seq<nat>, r: nat)
    requires v != [] && Increasing(v) && Follows(cs, v, r) && r < SIZE_LIMIT && Balanced(cs, v, 0, |cs|)
    ensures HitsBalanced(r, |v|, |cs|)
  {
    forall p, q | 0 <= p < |v| && 0 <= q < |v| ensures Hits(r, |v|, |cs|, p) <= Hits(r, |v|, |cs|, q) + 1 {
      RunCount(cs, v, r, p);
      RunCount(cs, v, r, q);
      BalancedPair(cs, v, p, q);
    }
  }

  lemma RepeatUnbalances(r: nat, n: nat, m: nat)
    requires n > 0 && r < SIZE_LIMIT < r + m && 0 < SIZE_LIMIT % n < m < n
    ensures !HitsBalanced(r, n, m)
  {
    var i, j := RepeatInLongerRun(r, n, m);
    TwoHits(r, n, m, Position(r, n, i), i, j);
    TotalHitsIsLength(r, n, m);
    if HitsBalanced(r, n, m) {
      TotalWithADouble(r, n, m, n, Position(r, n, i));
    }
  }

  /** A run too short to visit every position is not balanced once it visits one twice. */
  lemma UnbalancedInLongerRun(cs: seq<Option<nat>>, v: seq<nat>, r: nat)
    requires v != [] && Increasing(v) && Follows(cs, v, r) && |cs| < |v|
    requires r < SIZE_LIMIT < r + |cs| && 0 < SIZE_LIMIT % |v| < |cs|
    ensures !Balanced(cs, v, 0, |cs|)
  {
    RepeatUnbalances(r, |v|, |cs|);
    if Balanced(cs, v, 0, |cs|) {
      BalancedRunHits(cs, v, r);
    }
  }

  /** The index does not wrap during m allocations, or wraps without harm, or too few of them follow to show it. */
  predicate WrapIsHarmless(r: nat, n: nat, m: nat)
    requires n > 0
  {
    r + m <= SIZE_LIMIT || SIZE_LIMIT % n == 0 || m <= SIZE_LIMIT % n
  }

  lemma HarmlessIsBalanced(cs: seq<Option<nat>>, v: seq<nat>, r: nat)
    requires v != [] && Increasing(v) && Follows(cs, v, r) && r < SIZE_LIMIT && WrapIsHarmless(r, |v|, |cs|)
    ensures AlwaysBalanced(cs, v)
  {
    forall t: nat, m: nat | t + m <= |cs| ensures Balanced(cs, v, t, m) {
      var r' := (r + t) % SIZE_LIMIT;
      if r + |cs| <= SIZE_LIMIT {
        WindowEnd(r, t, m, |cs|, r');
        BalancedWithoutBadWrap(cs, v, r, t, m, r');
      } else if SIZE_LIMIT % |v| == 0 {
        BalancedWithoutBadWrap(cs, v, r, t, m, r');
      } else {
        BalancedInShortRun(cs, v, r, t, m);
      }
    }
  }

  lemma BalancedIsHarmless(cs: seq<Option<nat>>, v: seq<nat>, r: nat)
    requires v != [] && Increasing(v) && Follows(cs, v, r) && r < SIZE_LIMIT && AlwaysBalanced(cs, v)
    ensures WrapIsHarmless(r, |v|, |cs|)
  {
    if r + |cs| > SIZE_LIMIT && |v| <= |cs| {
      forall t | 0 <= t <= |cs| - |v| ensures CycleExact(cs, v, t) {
        assert Balanced(cs, v, t, |v|);
        BalancedCycleIsExact(cs, v, r, t, (r + t) % SIZE_LIMIT);
      }
      BadWrapIsSeen(cs, v, r);
    } else if !WrapIsHarmless(r, |v|, |cs|) {
      assert Balanced(cs, v, 0, |cs|);
      UnbalancedInLongerRun(cs, v, r);
    }
  }

  /**
   The exact condition for balance: over every stretch of a run any two nodes' counts differ by at most one, if and
   only if the index does not wrap during the run, or the number of nodes divides 2^64, or the whole run is no longer
   than the remainder of 2^64 by that number.
   */
  lemma {:induction false} AlwaysBalancedIff(a: AllocatorState, v: seq<nat>, rs: seq<Request>)
    requires Rotating(a, v, rs)
    ensures AlwaysBalanced(Choices(a, rs), v) <==>
      a.roundRobin + |rs| <= SIZE_LIMIT || SIZE_LIMIT % |v| == 0 || |rs| <= SIZE_LIMIT % |v|
  {
    ChoicesFollowPositions(a, v, rs);
    var cs := Choices(a, rs);
    if rs == [] {
      forall t: nat, m: nat | t + m <= |cs| ensures Balanced(cs, v, t, m) {
        assert cs[t..t + m] == [];
      }
    } else {
      RotatingIsIncreasing(a, v, rs);
      if WrapIsHarmless(a.roundRobin, |v|, |rs|) {
        HarmlessIsBalanced(cs, v, a.roundRobin);
      } else if AlwaysBalanced(cs, v) {
        BalancedIsHarmless(cs, v, a.roundRobin);
      }
    }
  }

  /** The index counts the allocations up to the largest 64-bit number and then starts again from zero. */
  lemma IndexWraps(a: AllocatorState, fleet: seq<Node>, req: Requirements)
    requires a.strategy == RoundRobin && a.roundRobin <= 18446744073709551615
    ensures var o := Attempt(a, fleet, req);
      if o.node.None? then o.allocator.roundRobin == a.roundRobin
      else
        && o.node.value == Viable(fleet, req.demand)[a.roundRobin % |Viable(fleet, req.demand)|]
        && o.allocator.roundRobin == if a.roundRobin == 18446744073709551615 then 0 else a.roundRobin + 1
  {
    if a.roundRobin < SIZE_LIMIT - 1 {
      SmallRemainder(a.roundRobin + 1, SIZE_LIMIT);
    }
  }

  /** The condition does fail: from the last index, three viable nodes are not each hit once by three allocations. */
  lemma WrapBreaksThreeNodes(a: AllocatorState, v: seq<nat>, rs: seq<Request>)
    requires Rotating(a, v, rs) && |v| == 3 && |rs| == 3 && a.roundRobin == 18446744073709551615
    ensures |Choices(a, rs)| == 3
    ensures Choices(a, rs)[0] == Choices(a, rs)[1] == Some(v[0])
    ensures multiset(Choices(a, rs))[Some(v[2])] == 0
  {
    ChoicesFollowPositions(a, v, rs);
    RotatingIsIncreasing(a, v, rs);
    FollowsAcrossWrap(Choices(a, rs), v);
  }

  lemma FollowsAcrossWrap(cs: seq<Option<nat>>, v: seq<nat>)
    requires |v| == 3 && |cs| == 3 && Follows(cs, v, SIZE_LIMIT - 1)
    ensures cs == [Some(v[0]), Some(v[0]), Some(v[1])]
  {
    var r := SIZE_LIMIT - 1;
    assert Position(r, 3, 0) == 0 && Position(r, 3, 1) == 0 && Position(r, 3, 2) == 1;
  }
}
