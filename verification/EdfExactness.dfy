/** Exactly when earliest-deadline-first picks the earliest deadline (task_scheduler.cpp, task.cpp). */
module EdfExactness {
  import opened Tasks
  import opened Selection
  import opened Scheduling

  // ---- What the clock can show, and what a correct pick is ----

  /** Both readings of one comparison come before both readings of a later one. */
  predicate Before(a: Reading, b: Reading) {
    a.candidate <= b.candidate && a.candidate <= b.best && a.best <= b.candidate && a.best <= b.best
  }

  ghost predicate ReadingOk(q: seq<TaskData>, r: Reading, d: real) {
    && -d <= r.candidate - r.best <= d
    && CreatedBefore(q, r.candidate) && CreatedBefore(q, r.best)
  }

  /** The clock moves on from comparison to comparison, and by at most d between the two readings of one. */
  ghost predicate ReadingsOk(q: seq<TaskData>, clock: Clock, d: real) {
    && (forall i :: 1 <= i < |q| ==> ReadingOk(q, clock(i), d))
    && (forall i, j :: 1 <= i < j < |q| ==> Before(clock(i), clock(j)))
  }

  function Earliest(q: seq<TaskData>): (e: nat)
    requires q != []
    ensures e < |q|
  {
    FirstLeast(q, DeadlineKey)
  }

  predicate PicksEarliest(q: seq<TaskData>, clock: Clock)
    requires q != []
  {
    DeadlineKey(q[PickIndex(EarliestDeadlineFirst, q, clock)]) == DeadlineKey(q[Earliest(q)])
  }

  /** A task that is not among the earliest is clearly later: by 1 ms more if it is queued before the first of them. */
  predicate Apart(q: seq<TaskData>, d: real, e: nat, i: nat)
    requires e < |q| && i < |q|
  {
    DeadlineKey(q[i]) != DeadlineKey(q[e]) ==> DeadlineKey(q[i]) >= DeadlineKey(q[e]) + if i < e then 1.0 + d else d
  }

  ghost predicate Separated(q: seq<TaskData>, d: real)
    requires q != []
  {
    forall i: nat :: i < |q| ==> Apart(q, d, Earliest(q), i)
  }

  ghost predicate AlwaysPicksEarliest(q: seq<TaskData>, d: real)
    requires q != []
  {
    forall clock: Clock :: ReadingsOk(q, clock, d) ==> PicksEarliest(q, clock)
  }

  // ---- Comparing two tasks at two readings ----

  lemma LaterDoesNotWin(w: TaskData, x: TaskData, r: Reading, d: real)
    requires w.created <= r.best && x.created <= r.candidate && r.candidate - r.best <= d
    requires DeadlineKey(x) >= DeadlineKey(w) + d
    ensures !(Remaining(x, r.candidate) < Remaining(w, r.best))
  {
    RemainingBracket(x, r.candidate);
    RemainingBracket(w, r.best);
  }

  lemma ClearlyEarlierWins(w: TaskData, x: TaskData, r: Reading, d: real)
    requires w.created <= r.best && x.created <= r.candidate && r.best - r.candidate <= d
    requires DeadlineKey(w) >= DeadlineKey(x) + 1.0 + d
    ensures Remaining(x, r.candidate) < Remaining(w, r.best)
  {
    RemainingBracket(x, r.candidate);
    RemainingBracket(w, r.best);
  }

  /** A whole number n of milliseconds after its deadline a task has exactly -n left. */
  lemma ExactlyOverdue(t: TaskData, now: real, n: nat)
    requires t.created <= now == DeadlineKey(t) + n as real
    ensures Remaining(t, now) + n == 0
  {
    RemainingBracket(t, now);
  }

  // ---- Separated deadlines are always picked correctly ----

  /**
   One comparison: the earliest displaces what stood before it, and afterwards only an equally early task displaces it.
   */
  lemma SeparatedOnce(q: seq<TaskData>, r: Reading, d: real, k: nat, e: nat, b: nat)
    requires b < k < |q| && e <= k && ReadingOk(q, r, d)
    requires Apart(q, d, e, k) && Apart(q, d, e, b)
    requires if e < k then DeadlineKey(q[b]) == DeadlineKey(q[e]) else DeadlineKey(q[b]) != DeadlineKey(q[e])
    ensures DeadlineKey(q[if Remaining(q[k], r.candidate) < Remaining(q[b], r.best) then k else b]) == DeadlineKey(q[e])
  {
    if e == k {
      ClearlyEarlierWins(q[b], q[e], r, d);
    } else if DeadlineKey(q[k]) != DeadlineKey(q[e]) {
      LaterDoesNotWin(q[b], q[k], r, d);
    }
  }

  lemma AllowedReading(q: seq<TaskData>, clock: Clock, d: real, j: nat, r: Reading)
    requires ReadingsOk(q, clock, d) && 1 <= j < |q| && r == clock(j)
    ensures ReadingOk(q, r, d)
  {
  }

  /** The scan's next comparison, given what stands before it and what stands after it. */
  lemma ScanMoves(q: seq<TaskData>, clock: Clock, j: nat, b: nat, b': nat, r: Reading)
    requires 1 <= j < |q| && b < j && LeastRemaining(q, clock, j) == b && r == clock(j)
    requires b' == if Remaining(q[j], r.candidate) < Remaining(q[b], r.best) then j else b
    ensures LeastRemaining(q, clock, j + 1) == b'
  {
  }

  lemma LaterBeforeEarliest(q: seq<TaskData>, e: nat, b: nat)
    requires b < e < |q| && e == Earliest(q)
    ensures DeadlineKey(q[b]) != DeadlineKey(q[e])
  {
  }

  lemma {:induction false} SeparatedScan(q: seq<TaskData>, clock: Clock, d: real, k: nat, e: nat)
    requires 1 <= k <= |q| && ReadingsOk(q, clock, d) && Separated(q, d) && e == Earliest(q)
    ensures e < k ==> DeadlineKey(q[LeastRemaining(q, clock, k)]) == DeadlineKey(q[e])
  {
    if k > 1 && e < k {
      var j, r, b := k - 1, clock(k - 1), LeastRemaining(q, clock, k - 1);
      SeparatedScan(q, clock, d, j, e);
      if e == j {
        LaterBeforeEarliest(q, e, b);
      }
      AllowedReading(q, clock, d, j, r);
      assert Apart(q, d, e, j) && Apart(q, d, e, b);
      SeparatedOnce(q, r, d, j, e, b);
      ScanMoves(q, clock, j, b, if Remaining(q[j], r.candidate) < Remaining(q[b], r.best) then j else b, r);
    }
  }

  // ---- A clock that makes the scan end at a chosen task ----

  lemma {:induction false} SomeBound(q: seq<TaskData>) returns (bound: nat)
    ensures forall i :: 0 <= i < |q| ==> Bounded(q[i], bound)
  {
    if q == [] {
      bound := 0;
    } else {
      var t := q[|q| - 1];
      var before := SomeBound(q[..|q| - 1]);
      var k, c := DeadlineKey(t), t.created;
      var upper := (if k < 0.0 then -k else k) + (if c < 0.0 then 0.0 else c);
      bound := before + upper.Floor + 1;
      forall i | 0 <= i < |q| ensures Bounded(q[i], bound) {
        if i < |q| - 1 {
          assert Bounded(q[..|q| - 1][i], before);
        }
      }
    }
  }

  predicate Bounded(t: TaskData, bound: nat) {
    -(bound as real) <= DeadlineKey(t) <= bound as real && t.created <= bound as real
  }

  /** Multiples of the step, from the first on. */
  function Base(j: nat, step: nat): nat {
    if j == 0 then step else Base(j - 1, step) + step
  }

  lemma {:induction false} BaseGrows(i: nat, j: nat, step: nat)
    requires i <= j
    ensures step <= Base(i, step) && (i < j ==> Base(i, step) + step <= Base(j, step)) && Base(i, step) <= Base(j, step)
  {
    if i < j {
      BaseGrows(i, j - 1, step);
    } else if i > 0 {
      BaseGrows(i - 1, i - 1, step);
    }
  }

  /** Where the scan is to stand after j tasks: at the earliest so far up to x, and at x from then on. */
  function Target(q: seq<TaskData>, x: nat, j: nat): (b: nat)
    requires x < |q| && 1 <= j <= |q|
    ensures b < j
  {
    if j <= x then FirstLeast(q[..j], DeadlineKey) else x
  }

  /** Readings d apart, a whole number of milliseconds after the deadline of the task to be left standing. */
  function Deceit(q: seq<TaskData>, x: nat, d: real, step: nat, j: nat): Reading
    requires x < |q| && 1 <= j < |q|
  {
    var n := Base(j, step) as real;
    if Target(q, x, j + 1) == j then Reading(DeadlineKey(q[j]) + n, DeadlineKey(q[j]) + n - d)
    else
      var w := DeadlineKey(q[Target(q, x, j)]);
      Reading(w + n - d, w + n)
  }

  function DeceitfulClock(q: seq<TaskData>, x: nat, d: real, step: nat): Clock
    requires x < |q|
  {
    j => if 1 <= j < |q| then Deceit(q, x, d, step, j) else Reading(0.0, 0.0)
  }

  /** Task x can displace what stands before it, and nothing after it need displace x. */
  ghost predicate Deceivable(q: seq<TaskData>, x: nat, d: real)
    requires x < |q|
  {
    && (x > 0 ==>
        var w := DeadlineKey(q[FirstLeast(q[..x], DeadlineKey)]);
        DeadlineKey(q[x]) < w || DeadlineKey(q[x]) < w + d)
    && (forall j :: x < j < |q| ==> DeadlineKey(q[x]) < DeadlineKey(q[j]) + 1.0 + d)
  }

  ghost predicate WideStep(q: seq<TaskData>, d: real, step: nat, bound: nat) {
    && d >= 0.0 && step as real >= 2.0 * bound as real + d
    && forall i :: 0 <= i < |q| ==> Bounded(q[i], bound)
  }

  lemma DeceitBetween(q: seq<TaskData>, x: nat, d: real, step: nat, bound: nat, j: nat)
    requires WideStep(q, d, step, bound) && x < |q| && 1 <= j < |q|
    ensures var r, n := Deceit(q, x, d, step, j), Base(j, step) as real;
      && n - bound as real - d <= r.candidate <= n + bound as real
      && n - bound as real - d <= r.best <= n + bound as real
  {
    assert Bounded(q[j], bound) && Bounded(q[Target(q, x, j)], bound);
  }

  lemma DeceitIsAllowed(q: seq<TaskData>, x: nat, d: real, step: nat, bound: nat)
    requires WideStep(q, d, step, bound) && x < |q|
    ensures ReadingsOk(q, DeceitfulClock(q, x, d, step), d)
  {
    var clock := DeceitfulClock(q, x, d, step);
    forall i | 1 <= i < |q| ensures ReadingOk(q, clock(i), d) {
      DeceitBetween(q, x, d, step, bound, i);
      BaseGrows(0, i, step);
      forall t | 0 <= t < |q| ensures q[t].created <= clock(i).candidate && q[t].created <= clock(i).best {
        assert Bounded(q[t], bound);
      }
    }
    forall i, j | 1 <= i < j < |q| ensures Before(clock(i), clock(j)) {
      DeceitBetween(q, x, d, step, bound, i);
      DeceitBetween(q, x, d, step, bound, j);
      BaseGrows(i, j, step);
    }
  }

  lemma Displaces(w: TaskData, t: TaskData, r: Reading, d: real, n: nat)
    requires r == Reading(DeadlineKey(t) + n as real, DeadlineKey(t) + n as real - d)
    requires t.created <= r.candidate && w.created <= r.best
    requires d >= 0.0 && (DeadlineKey(t) < DeadlineKey(w) || DeadlineKey(t) < DeadlineKey(w) + d)
    ensures Remaining(t, r.candidate) < Remaining(w, r.best)
  {
    ExactlyOverdue(t, r.candidate, n);
    RemainingBracket(w, r.best);
  }

  lemma Stays(w: TaskData, t: TaskData, r: Reading, d: real, n: nat)
    requires r == Reading(DeadlineKey(w) + n as real - d, DeadlineKey(w) + n as real)
    requires t.created <= r.candidate && w.created <= r.best && DeadlineKey(w) < DeadlineKey(t) + 1.0 + d
    ensures !(Remaining(t, r.candidate) < Remaining(w, r.best))
  {
    ExactlyOverdue(w, r.best, n);
    RemainingBracket(t, r.candidate);
  }

  /** One comparison: what the readings let stand is the target. */
  lemma DeceivedOnce(q: seq<TaskData>, x: nat, d: real, step: nat, j: nat, r: Reading)
    requires x < |q| && 1 <= j < |q| && Deceivable(q, x, d) && d >= 0.0
    requires r == Deceit(q, x, d, step, j) && ReadingOk(q, r, d)
    ensures Target(q, x, j + 1)
      == if Remaining(q[j], r.candidate) < Remaining(q[Target(q, x, j)], r.best) then j else Target(q, x, j)
  {
    var w := Target(q, x, j);
    assert q[..j + 1][..j] == q[..j];
    if Target(q, x, j + 1) == j {
      Displaces(q[w], q[j], r, d, Base(j, step));
    } else {
      Stays(q[w], q[j], r, d, Base(j, step));
    }
  }

  lemma DeceitfulReading(q: seq<TaskData>, clock: Clock, x: nat, d: real, step: nat, j: nat)
    requires x < |q| && 1 <= j < |q| && clock == DeceitfulClock(q, x, d, step)
    ensures clock(j) == Deceit(q, x, d, step, j)
  {
  }

  lemma {:induction false} ScanIsDeceived(q: seq<TaskData>, clock: Clock, x: nat, d: real, step: nat, k: nat)
    requires x < |q| && 1 <= k <= |q| && Deceivable(q, x, d) && d >= 0.0
    requires clock == DeceitfulClock(q, x, d, step) && ReadingsOk(q, clock, d)
    ensures LeastRemaining(q, clock, k) == Target(q, x, k)
  {
    if k > 1 {
      var j := k - 1;
      ScanIsDeceived(q, clock, x, d, step, j);
      DeceitfulReading(q, clock, x, d, step, j);
      AllowedReading(q, clock, d, j, clock(j));
      DeceivedOnce(q, x, d, step, j, clock(j));
      ScanMoves(q, clock, j, Target(q, x, j), Target(q, x, k), clock(j));
    }
  }

  /** Whatever can be made to stand is picked under some allowed clock. */
  lemma SomeClockPicks(q: seq<TaskData>, x: nat, d: real) returns (clock: Clock)
    requires x < |q| && d >= 0.0 && Deceivable(q, x, d)
    ensures ReadingsOk(q, clock, d) && PickIndex(EarliestDeadlineFirst, q, clock) == x
  {
    var bound := SomeBound(q);
    var step := 2 * bound + d.Floor + 1;
    clock := DeceitfulClock(q, x, d, step);
    DeceitIsAllowed(q, x, d, step, bound);
    ScanIsDeceived(q, clock, x, d, step, |q|);
  }

  /** Where deadlines are too close some task that is not the earliest can be made to stand. */
  lemma SomeTaskDeceives(q: seq<TaskData>, d: real, i: nat) returns (x: nat)
    requires q != [] && d >= 0.0 && i < |q| && !Apart(q, d, Earliest(q), i)
    ensures x < |q| && Deceivable(q, x, d) && DeadlineKey(q[x]) != DeadlineKey(q[Earliest(q)])
  {
    var e := Earliest(q);
    if i < e {
      var front := q[..e];
      x := FirstLeast(front, DeadlineKey);
      assert front[i] == q[i] && front[x] == q[x];
      if x > 0 {
        var w := FirstLeast(q[..x], DeadlineKey);
        assert q[..x][w] == front[w] == q[w];
      }
    } else {
      x := i;
      var w := FirstLeast(q[..x], DeadlineKey);
      assert q[..x][e] == q[e] && q[..x][w] == q[w];
    }
  }

  // ---- The exact condition ----

  /**
   Earliest-deadline-first picks a task of least deadline whatever the clock shows, if and only if every task
   that is not among the earliest is at least d later, and by a further millisecond when it is queued before
   the first of them; d bounds the time between the two readings of one comparison.
   */
  lemma EdfExactIff(q: seq<TaskData>, d: real)
    requires q != [] && d >= 0.0
    ensures AlwaysPicksEarliest(q, d) <==> Separated(q, d)
  {
    if Separated(q, d) {
      forall clock: Clock | ReadingsOk(q, clock, d) ensures PicksEarliest(q, clock) {
        SeparatedScan(q, clock, d, |q|, Earliest(q));
      }
    } else {
      var i: nat :| i < |q| && !Apart(q, d, Earliest(q), i);
      var x := SomeTaskDeceives(q, d, i);
      var clock := SomeClockPicks(q, x, d);
      assert !PicksEarliest(q, clock);
    }
  }

  lemma {:induction false} MarksInOrder(clock: Clock, mark: nat -> real, n: nat, i: nat, j: nat)
    requires ScanTimes(clock, mark, n) && 1 <= i <= j <= n
    ensures mark(i) <= mark(j)
  {
    if i < j {
      MarksInOrder(clock, mark, n, i, j - 1);
      assert mark(j - 1) <= clock(j - 1).best <= mark(j);
    }
  }

  /** A scan that lasts at most d milliseconds shows only such readings. */
  lemma ScanReadingsOk(q: seq<TaskData>, clock: Clock, mark: nat -> real, d: real)
    requires q != [] && ScanTimes(clock, mark, |q|) && CreatedBefore(q, mark(1)) && mark(|q|) - mark(1) <= d
    ensures ReadingsOk(q, clock, d)
  {
    forall i | 1 <= i < |q| ensures ReadingOk(q, clock(i), d) {
      MarksInOrder(clock, mark, |q|, 1, i);
      MarksInOrder(clock, mark, |q|, i + 1, |q|);
    }
    forall i, j | 1 <= i < j < |q| ensures Before(clock(i), clock(j)) {
      MarksInOrder(clock, mark, |q|, i + 1, j);
    }
  }

  /** In a scan of at most d milliseconds separated deadlines are picked exactly. */
  lemma ScanPicksEarliest(q: seq<TaskData>, clock: Clock, mark: nat -> real, d: real)
    requires q != [] && ScanTimes(clock, mark, |q|) && CreatedBefore(q, mark(1)) && mark(|q|) - mark(1) <= d
    requires Separated(q, d)
    ensures PicksEarliest(q, clock)
  {
    ScanReadingsOk(q, clock, mark, d);
    SeparatedScan(q, clock, d, |q|, Earliest(q));
  }

  /** Three tasks in creation order; the last is the earliest, and the others are due 1.9 ms and 1.45 ms after it. */
  function CloseThree(): seq<TaskData> {
    [TaskData(0, Requirements(ZERO, 3, Low), 0.0), TaskData(1, Requirements(ZERO, 2, Low), 0.55),
     TaskData(2, Requirements(ZERO, 0, Low), 1.1)]
  }

  /** If x stands against the earliest, their two readings span a whole millisecond less than x's distance. */
  lemma StandingTakesTime(x: TaskData, e: TaskData, r: Reading)
    requires x.created <= r.best && e.created <= r.candidate && !(Remaining(e, r.candidate) < Remaining(x, r.best))
    ensures r.best - r.candidate > DeadlineKey(x) - DeadlineKey(e) - 1.0
  {
    RemainingBracket(x, r.best);
    RemainingBracket(e, r.candidate);
  }

  /**
   What the second and the first task have left in the first comparison is x1 and w1; what the second and the last have
   left in the second is x2 and e2.
   */
  lemma WholeSteps(a: Reading, b: Reading, x1: int, w1: int, x2: int, e2: int)
    requires Before(a, b) && x1 < w1 && x2 <= e2
    requires 2.55 - a.candidate <= x1 as real && (w1 as real) < 3.0 - a.best + 1.0
    requires 2.55 - b.best <= x2 as real && (e2 as real) < 1.1 - b.candidate + 1.0
    ensures b.best - a.best > 0.5
  {
    assert x2 as real <= e2 as real < 2.1 - b.candidate <= 2.1 - a.candidate;
    assert x1 >= x2 + 1;
    assert w1 >= x2 + 2;
    assert w1 as real >= x2 as real + 2.0;
  }

  /** The second task displaces the first and then stands against the last only in more than half a millisecond. */
  lemma BothTakeLonger(q: seq<TaskData>, a: Reading, b: Reading)
    requires q == CloseThree() && Before(a, b)
    requires CreatedBefore(q, a.candidate) && CreatedBefore(q, a.best)
    requires CreatedBefore(q, b.candidate) && CreatedBefore(q, b.best)
    requires Remaining(q[1], a.candidate) < Remaining(q[0], a.best)
    requires !(Remaining(q[2], b.candidate) < Remaining(q[1], b.best))
    ensures b.best - a.best > 0.5
  {
    RemainingBracket(q[1], a.candidate);
    RemainingBracket(q[0], a.best);
    RemainingBracket(q[2], b.candidate);
    RemainingBracket(q[1], b.best);
    WholeSteps(a, b, Remaining(q[1], a.candidate), Remaining(q[0], a.best),
      Remaining(q[1], b.best), Remaining(q[2], b.candidate));
  }

  lemma CloseThreeOrder()
    ensures InCreationOrder(CloseThree()) && Earliest(CloseThree()) == 2 && !Separated(CloseThree(), 0.5)
  {
    var q := CloseThree();
    assert DeadlineKey(q[0]) == 3.0 && DeadlineKey(q[1]) == 2.55 && DeadlineKey(q[2]) == 1.1;
    FirstLeastUnique(q, DeadlineKey, 2);
    assert !Apart(q, 0.5, 2, 1);
  }

  /**
   If it is the whole scan that lasts at most d, separation is enough but not needed: these three tasks are not
   separated by half a millisecond, yet no scan of half a millisecond gets them wrong.
   */
  lemma ShortScansNeedLess(clock: Clock, mark: nat -> real)
    requires ScanTimes(clock, mark, 3) && CreatedBefore(CloseThree(), mark(1)) && mark(3) - mark(1) <= 0.5
    ensures InCreationOrder(CloseThree()) && !Separated(CloseThree(), 0.5) && PicksEarliest(CloseThree(), clock)
  {
    var q := CloseThree();
    CloseThreeOrder();
    ScanReadingsOk(q, clock, mark, 0.5);
    assert ReadingOk(q, clock(1), 0.5) && ReadingOk(q, clock(2), 0.5) && Before(clock(1), clock(2));
    assert mark(1) <= clock(1).best <= mark(2) && mark(2) <= clock(2).best <= mark(3);
    var b := LeastRemaining(q, clock, 2);
    if !(Remaining(q[2], clock(2).candidate) < Remaining(q[b], clock(2).best)) {
      StandingTakesTime(q[b], q[2], clock(2));
      if b == 1 {
        BothTakeLonger(q, clock(1), clock(2));
      }
      assert false;
    }
  }

  // ---- One reading for the whole pick ----

  function RemainingAt(now: real): TaskData -> real {
    (t: TaskData) => Remaining(t, now) as real
  }

  lemma {:induction false} StandingScan(q: seq<TaskData>, now: real, k: nat)
    requires 1 <= k <= |q|
    ensures LeastRemaining(q, At(now), k) == FirstLeast(q[..k], RemainingAt(now))
  {
    if k > 1 {
      StandingScan(q, now, k - 1);
      assert q[..k][..k - 1] == q[..k - 1];
    }
  }

  lemma StandingPick(q: seq<TaskData>, now: real)
    requires q != []
    ensures PickIndex(EarliestDeadlineFirst, q, At(now)) == FirstLeast(q, RemainingAt(now))
  {
    StandingScan(q, now, |q|);
    assert q[..|q|] == q;
  }

  ghost predicate PicksEarliestAt(q: seq<TaskData>, now: real)
    requires q != []
  {
    PickIndex(EarliestDeadlineFirst, q, At(now)) == Earliest(q)
  }

  lemma LaterHasNoLessLeft(a: TaskData, b: TaskData, now: real)
    requires a.created <= now && b.created <= now && DeadlineKey(a) <= DeadlineKey(b)
    ensures Remaining(a, now) <= Remaining(b, now)
  {
    RemainingBracket(a, now);
    RemainingBracket(b, now);
  }

  /** Separated by a millisecond, the very task that is first earliest is picked at every time. */
  lemma SeparatedPick(q: seq<TaskData>, now: real)
    requires q != [] && Separated(q, 0.0) && CreatedBefore(q, now)
    ensures PicksEarliestAt(q, now)
  {
    var e := Earliest(q);
    forall i | 0 <= i < |q| ensures Remaining(q[e], now) <= Remaining(q[i], now) {
      LaterHasNoLessLeft(q[e], q[i], now);
    }
    forall i | 0 <= i < e ensures Remaining(q[e], now) < Remaining(q[i], now) {
      assert Apart(q, 0.0, e, i);
      ClearlyEarlierWins(q[i], q[e], Reading(now, now), 0.0);
    }
    StandingPick(q, now);
    FirstLeastUnique(q, RemainingAt(now), e);
  }

  lemma SomeTimeOverdue(t: TaskData, from: real) returns (now: real, n: nat)
    ensures from <= now == DeadlineKey(t) + n as real
  {
    var gap := from - DeadlineKey(t);
    n := if gap < 0.0 then 0 else gap.Floor + 1;
    now := DeadlineKey(t) + n as real;
  }

  /** At that time a task less than a millisecond earlier has as little left. */
  lemma TiesWhenOverdue(a: TaskData, b: TaskData, now: real, n: nat)
    requires b.created <= now && a.created <= now == DeadlineKey(a) + n as real
    requires DeadlineKey(b) <= DeadlineKey(a) < DeadlineKey(b) + 1.0
    ensures Remaining(a, now) == Remaining(b, now)
  {
    ExactlyOverdue(a, now, n);
    RemainingBracket(b, now);
  }

  lemma TieFavoursTheFront(q: seq<TaskData>, i: nat, now: real)
    requires q != [] && i < Earliest(q) && CreatedBefore(q, now)
    requires Remaining(q[i], now) == Remaining(q[Earliest(q)], now)
    ensures PickIndex(EarliestDeadlineFirst, q, At(now)) < Earliest(q)
  {
    StandingPick(q, now);
    var p := FirstLeast(q, RemainingAt(now));
    LaterHasNoLessLeft(q[Earliest(q)], q[p], now);
    assert p <= i;
  }

  /** Otherwise there is such a time, as late as one likes, at which a later deadline wins. */
  lemma CloseDeadlinesCanBePicked(q: seq<TaskData>, i: nat, from: real) returns (now: real)
    requires q != [] && i < Earliest(q) && DeadlineKey(q[i]) < DeadlineKey(q[Earliest(q)]) + 1.0
      && CreatedBefore(q, from)
    ensures now >= from && CreatedBefore(q, now)
    ensures DeadlineKey(q[PickIndex(EarliestDeadlineFirst, q, At(now))]) > DeadlineKey(q[Earliest(q)])
  {
    var n: nat;
    now, n := SomeTimeOverdue(q[i], from);
    TiesWhenOverdue(q[i], q[Earliest(q)], now, n);
    TieFavoursTheFront(q, i, now);
  }

  ghost predicate AlwaysPicksEarliestAt(q: seq<TaskData>)
    requires q != []
  {
    forall now :: CreatedBefore(q, now) ==> PicksEarliest(q, At(now))
  }

  lemma {:induction false} SomeTimeAfterCreation(q: seq<TaskData>) returns (now: real)
    ensures CreatedBefore(q, now)
  {
    var bound := SomeBound(q);
    now := bound as real;
    forall i | 0 <= i < |q| ensures q[i].created <= now {
      assert Bounded(q[i], bound);
    }
  }

  /**
   With one reading per pick, earliest-deadline-first is right at every time if and only if every task queued
   before the first of the earliest is at least one millisecond later.
   */
  lemma EdfOneReadingExactIff(q: seq<TaskData>)
    requires q != []
    ensures AlwaysPicksEarliestAt(q)
      <==> forall i :: 0 <= i < Earliest(q) ==> DeadlineKey(q[i]) >= DeadlineKey(q[Earliest(q)]) + 1.0
  {
    var e := Earliest(q);
    if forall i :: 0 <= i < e ==> DeadlineKey(q[i]) >= DeadlineKey(q[e]) + 1.0 {
      assert Separated(q, 0.0);
      forall now | CreatedBefore(q, now) ensures PicksEarliest(q, At(now)) {
        SeparatedPick(q, now);
      }
    } else {
      var i: nat :| i < e && DeadlineKey(q[i]) < DeadlineKey(q[e]) + 1.0;
      var from := SomeTimeAfterCreation(q);
      var now := CloseDeadlinesCanBePicked(q, i, from);
      assert !PicksEarliest(q, At(now));
    }
  }

  // ---- Draining a queue with one reading per pick ----

  /** Any two tasks queued against their deadlines' order are at least a millisecond apart. */
  ghost predicate InversionsApart(q: seq<TaskData>) {
    forall i, j :: 0 <= i < j < |q| && DeadlineKey(q[j]) < DeadlineKey(q[i])
      ==> DeadlineKey(q[i]) >= DeadlineKey(q[j]) + 1.0
  }

  function Standing(times: nat -> real): nat -> Clock {
    p => At(times(p))
  }

  ghost predicate TimesOk(q: seq<TaskData>, times: nat -> real) {
    forall p :: CreatedBefore(q, times(p))
  }

  ghost predicate DrainsSorted(q: seq<TaskData>, times: nat -> real) {
    IsStableSort(DrainedBy(EarliestDeadlineFirst, q, Standing(times)), q, DeadlineKey)
  }

  ghost predicate AlwaysDrainsSorted(q: seq<TaskData>) {
    forall times: nat -> real :: TimesOk(q, times) ==> DrainsSorted(q, times)
  }

  lemma DrainsSortedIff(q: seq<TaskData>, times: nat -> real)
    ensures DrainsSorted(q, times) <==> DrainedBy(EarliestDeadlineFirst, q, Standing(times)) == Drain(q, DeadlineKey)
  {
    DrainIsStableSort(q, DeadlineKey);
    if DrainsSorted(q, times) {
      StableSortUnique(DrainedBy(EarliestDeadlineFirst, q, Standing(times)), Drain(q, DeadlineKey), DeadlineKey);
    }
  }

  lemma InversionsApartSeparates(q: seq<TaskData>)
    requires q != [] && InversionsApart(q)
    ensures Separated(q, 0.0)
  {
    var e := Earliest(q);
    forall i: nat | i < |q| ensures Apart(q, 0.0, e, i) {
      if i < e {
        assert DeadlineKey(q[e]) < DeadlineKey(q[i]);
      }
    }
  }

  lemma InversionsApartWithout(q: seq<TaskData>, e: nat)
    requires e < |q| && InversionsApart(q)
    ensures InversionsApart(RemoveAt(q, e))
  {
    var rest := RemoveAt(q, e);
    forall i, j | 0 <= i < j < |rest| && DeadlineKey(rest[j]) < DeadlineKey(rest[i])
      ensures DeadlineKey(rest[i]) >= DeadlineKey(rest[j]) + 1.0
    {
      var i', j' := if i < e then i else i + 1, if j < e then j else j + 1;
      assert rest[i] == q[i'] && rest[j] == q[j'];
    }
  }

  lemma {:induction false} ApartDrains(q: seq<TaskData>, times: nat -> real)
    requires InversionsApart(q) && TimesOk(q, times)
    ensures DrainedBy(EarliestDeadlineFirst, q, Standing(times)) == Drain(q, DeadlineKey)
    decreases |q|
  {
    if q != [] {
      var e := Earliest(q);
      InversionsApartSeparates(q);
      assert CreatedBefore(q, times(|q|));
      SeparatedPick(q, times(|q|));
      InversionsApartWithout(q, e);
      var rest := RemoveAt(q, e);
      forall p ensures CreatedBefore(rest, times(p)) {
        assert CreatedBefore(q, times(p));
      }
      ApartDrains(rest, times);
    }
  }

  /** The close pair survives the removal of the earliest unless it holds the earliest. */
  lemma InversionRemains(q: seq<TaskData>, e: nat)
    requires q != [] && e == Earliest(q) && !InversionsApart(q)
    requires forall i :: 0 <= i < e ==> DeadlineKey(q[i]) >= DeadlineKey(q[e]) + 1.0
    ensures !InversionsApart(RemoveAt(q, e))
  {
    var i, j :| 0 <= i < j < |q| && DeadlineKey(q[j]) < DeadlineKey(q[i])
      && DeadlineKey(q[i]) < DeadlineKey(q[j]) + 1.0;
    var rest := RemoveAt(q, e);
    assert i != e && j != e;
    var i', j' := if i < e then i else i - 1, if j < e then j else j - 1;
    assert rest[i'] == q[i] && rest[j'] == q[j];
  }

  lemma DrainedHead(q: seq<TaskData>, times: nat -> real)
    requires q != []
    ensures var i := PickIndex(EarliestDeadlineFirst, q, At(times(|q|)));
      DrainedBy(EarliestDeadlineFirst, q, Standing(times))
        == [q[i]] + DrainedBy(EarliestDeadlineFirst, RemoveAt(q, i), Standing(times))
  {
  }

  lemma FrontApartSeparates(q: seq<TaskData>, e: nat)
    requires q != [] && e == Earliest(q)
    requires forall i :: 0 <= i < e ==> DeadlineKey(q[i]) >= DeadlineKey(q[e]) + 1.0
    ensures Separated(q, 0.0)
  {
  }

  lemma WrongTailDrainsWrong(q: seq<TaskData>, e: nat, times: nat -> real, rest: seq<TaskData>)
    requires q != [] && e == Earliest(q) && PicksEarliestAt(q, times(|q|)) && rest == RemoveAt(q, e)
    requires DrainedBy(EarliestDeadlineFirst, rest, Standing(times)) != Drain(rest, DeadlineKey)
    ensures DrainedBy(EarliestDeadlineFirst, q, Standing(times)) != Drain(q, DeadlineKey)
  {
    DrainedHead(q, times);
    assert Drain(q, DeadlineKey) == [q[e]] + Drain(rest, DeadlineKey);
    SameHeadOtherTail(q[e], DrainedBy(EarliestDeadlineFirst, rest, Standing(times)), Drain(rest, DeadlineKey));
  }

  /** A close pair can be drained in the wrong order, by pick times as late as one likes. */
  lemma {:induction false} CloseInversionDrainsWrong(q: seq<TaskData>, from: real) returns (times: nat -> real)
    requires !InversionsApart(q) && CreatedBefore(q, from)
    ensures forall p :: times(p) >= from
    ensures DrainedBy(EarliestDeadlineFirst, q, Standing(times)) != Drain(q, DeadlineKey)
    decreases |q|
  {
    var e := Earliest(q);
    if i: nat :| i < e && DeadlineKey(q[i]) < DeadlineKey(q[e]) + 1.0 {
      var now := CloseDeadlinesCanBePicked(q, i, from);
      times := _ => now;
      DrainedHead(q, times);
      assert Drain(q, DeadlineKey)[0] == q[e];
    } else {
      InversionRemains(q, e);
      var rest := RemoveAt(q, e);
      times := CloseInversionDrainsWrong(rest, from);
      FrontApartSeparates(q, e);
      assert times(|q|) >= from;
      SeparatedPick(q, times(|q|));
      WrongTailDrainsWrong(q, e, times, rest);
    }
  }

  lemma SameHeadOtherTail(t: TaskData, a: seq<TaskData>, b: seq<TaskData>)
    requires a != b
    ensures [t] + a != [t] + b
  {
    assert ([t] + a)[1..] == a;
    assert ([t] + b)[1..] == b;
  }

  /**
   Draining with one reading per pick is the stable sort by absolute deadline whenever the picks happen, if and
   only if any two tasks queued against their deadlines' order are at least a millisecond apart.
   */
  lemma EdfDrainExactIff(q: seq<TaskData>)
    ensures AlwaysDrainsSorted(q) <==> InversionsApart(q)
  {
    if InversionsApart(q) {
      forall times: nat -> real | TimesOk(q, times) ensures DrainsSorted(q, times) {
        ApartDrains(q, times);
        DrainsSortedIff(q, times);
      }
    } else {
      var from := SomeTimeAfterCreation(q);
      var times := CloseInversionDrainsWrong(q, from);
      assert TimesOk(q, times);
      DrainsSortedIff(q, times);
      assert !DrainsSorted(q, times);
    }
  }

  // ---- The error bound is reached ----

  /**
   For scans of every duration d the picked deadline can come as close as one likes to 1 ms plus d above the
   earliest, in a queue filled in creation order: the bound of EdfAccuracy is tight.
   */
  lemma EdfAccuracyIsTight(d: real, eps: real) returns (q: seq<TaskData>, clock: Clock, mark: nat -> real)
    requires d >= 0.0 && eps > 0.0
    ensures |q| == 2 && InCreationOrder(q)
    ensures ScanTimes(clock, mark, |q|) && CreatedBefore(q, mark(1)) && mark(|q|) - mark(1) == d
    ensures q[PickIndex(EarliestDeadlineFirst, q, clock)].AbsoluteDeadline() > q[Earliest(q)].AbsoluteDeadline()
      + 1.0 + d - eps
  {
    var slack := if eps < 1.0 then eps / 2.0 else 0.5;
    var gap, n := 1.0 + d - slack, (d.Floor + 1) as real;
    var first := gap.Floor + 1;
    var due := first as real;
    q := [TaskData(0, Requirements(ZERO, first, Low), 0.0), TaskData(1, Requirements(ZERO, 0, Low), due - gap)];
    clock := _ => Reading(due + n - d, due + n);
    mark := i => if i <= 1 then due + n - d else due + n;
    Stays(q[0], q[1], clock(1), d, d.Floor + 1);
    assert LeastRemaining(q, clock, 1) == 0 && LeastRemaining(q, clock, 2) == 0;
    assert DeadlineKey(q[Earliest(q)]) <= DeadlineKey(q[1]) == due - gap;
  }
}
