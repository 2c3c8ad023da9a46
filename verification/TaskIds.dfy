/** Generated task ids are injective in the counter, also beyond six digits (task_manager.cpp). */
module TaskIds {
  import opened Tasks

  function DigitChar(d: nat): (c: char)
    requires d < 10
    ensures Digit(c) == d
  {
    '0' + d as char
  }

  /** Decimal form without leading zeros, as an output stream writes an unsigned number. */
  function Decimal(n: nat): (s: string)
    ensures s != []
  {
    if n < 10 then [DigitChar(n)] else Decimal(n / 10) + [DigitChar(n % 10)]
  }

  function Zeros(k: nat): string {
    seq(k, _ => '0')
  }

  /** std::setfill('0') << std::setw(6): pads on the left and never truncates. */
  function TaskId(n: nat): string {
    var d := Decimal(n);
    "T" + (if |d| < 6 then Zeros(6 - |d|) else "") + d
  }

  /** The number a decimal string denotes. */
  function Value(s: string): nat {
    if s == [] then 0 else 10 * Value(s[..|s| - 1]) + Digit(s[|s| - 1])
  }

  function Digit(c: char): nat {
    if '0' <= c <= '9' then (c - '0') as nat else 0
  }

  lemma {:induction false} ValueOfDecimal(n: nat)
    ensures Value(Decimal(n)) == n
  {
    if n < 10 {
      assert Decimal(n)[..0] == [];
    } else {
      ValueOfDecimal(n / 10);
      assert Decimal(n)[..|Decimal(n)| - 1] == Decimal(n / 10);
    }
  }

  lemma {:induction false} LeadingZeros(k: nat, s: string)
    ensures Value(Zeros(k) + s) == Value(s)
  {
    if s == [] {
      assert Zeros(k) + s == Zeros(k);
      ValueOfZeros(k);
    } else {
      assert (Zeros(k) + s)[..|Zeros(k) + s| - 1] == Zeros(k) + s[..|s| - 1];
      LeadingZeros(k, s[..|s| - 1]);
    }
  }

  lemma {:induction false} ValueOfZeros(k: nat)
    ensures Value(Zeros(k)) == 0
  {
    if k > 0 {
      assert Zeros(k)[..k - 1] == Zeros(k - 1);
      ValueOfZeros(k - 1);
    }
  }

  /** The counter can be read back from the id, so no two counters share one. */
  lemma IdDeterminesCounter(n: nat)
    ensures |TaskId(n)| >= 7 && TaskId(n)[0] == 'T' && Value(TaskId(n)[1..]) == n
  {
    var d := Decimal(n);
    ValueOfDecimal(n);
    if |d| < 6 {
      LeadingZeros(6 - |d|, d);
      assert TaskId(n)[1..] == Zeros(6 - |d|) + d;
    } else {
      assert TaskId(n)[1..] == d;
    }
  }

  lemma IdsAreInjective(m: nat, n: nat)
    ensures TaskId(m) == TaskId(n) ==> m == n
  {
    IdDeterminesCounter(m);
    IdDeterminesCounter(n);
  }

  /** How many characters an id has: seven up to a million tasks, then one more per digit. */
  lemma {:induction false} DecimalLength(n: nat, k: nat)
    requires k > 0
    ensures |Decimal(n)| <= k <==> n < Power(k)
    decreases k
  {
    if n >= 10 && k > 1 {
      DecimalLength(n / 10, k - 1);
    } else if k > 1 {
      PowerGrows(k);
    }
  }

  function Power(k: nat): nat {
    if k == 0 then 1 else 10 * Power(k - 1)
  }

  lemma {:induction false} PowerGrows(k: nat)
    requires k > 0
    ensures Power(k) >= 10
  {
    if k > 1 {
      PowerGrows(k - 1);
    }
  }

  lemma IdLength(n: nat)
    ensures |TaskId(n)| == 7 <==> n < 1000000
  {
    DecimalLength(n, 6);
    assert Power(6) == 1000000;
  }

  const DIGITS := "0123456789"

  lemma DigitCharByTable(d: nat)
    requires d < 10
    ensures DigitChar(d) == DIGITS[d]
  {
    if d < 5 {
      assert d == 0 || d == 1 || d == 2 || d == 3 || d == 4;
    } else {
      assert d == 5 || d == 6 || d == 7 || d == 8 || d == 9;
    }
  }

  lemma {:induction false} PowerPositive(k: nat)
    ensures Power(k) > 0
  {
    if k > 0 {
      PowerPositive(k - 1);
    }
  }

  lemma ProductNonNegative(x: int, d: int)
    requires x >= 0 && d >= 0
    ensures x * d >= 0
  {
  }

  lemma MultiplesApart(p: int, q: int, d: int)
    requires p < q && d >= 0
    ensures p * d + d <= q * d
  {
    ProductNonNegative(q - p - 1, d);
    assert (q - p - 1) * d == q * d - p * d - d;
  }

  lemma QuotientBetween(n: nat, d: nat, q: nat)
    requires d > 0 && q * d <= n < q * d + d
    ensures n / d == q
  {
    var p, r := n / d, n % d;
    assert n == p * d + r;
    if p > q {
      MultiplesApart(q, p, d);
    } else if p < q {
      MultiplesApart(p, q, d);
    }
  }

  lemma QuotientTwice(n: nat, p: nat)
    requires p > 0
    ensures (n / 10) / p == n / (10 * p)
  {
    var q := (n / 10) / p;
    var r := n / 10 - q * p;
    assert 0 <= r < p;
    assert 10 * (n / 10) <= n < 10 * (n / 10) + 10;
    assert q * (10 * p) == 10 * (q * p);
    QuotientBetween(n, 10 * p, q);
  }

  lemma {:induction false} DecimalDigit(n: nat, k: nat)
    requires k < |Decimal(n)|
    ensures Power(k) > 0 && Decimal(n)[|Decimal(n)| - 1 - k] == DIGITS[n / Power(k) % 10]
  {
    PowerPositive(k);
    DigitCharByTable(n % 10);
    if n >= 10 && k > 0 {
      DecimalDigit(n / 10, k - 1);
      QuotientTwice(n, Power(k - 1));
    } else if k == 0 {
      assert Power(0) == 1;
    }
  }

  /** From the right, the k-th character after the T is the counter's k-th decimal digit, zero where it has none. */
  lemma IdDigits(n: nat, k: nat)
    requires k < |TaskId(n)| - 1
    ensures Power(k) > 0 && TaskId(n)[|TaskId(n)| - 1 - k] == DIGITS[n / Power(k) % 10]
  {
    PowerPositive(k);
    if k < |Decimal(n)| {
      DecimalDigit(n, k);
    } else {
      DecimalLength(n, k);
      QuotientBetween(n, Power(k), 0);
    }
  }

  const FALLBACK := Requirements(Vec(5.0, 20.0, 0.5), 1000, Low)

  /** A sensor type's profile, or a modest default for an unknown one. */
  function ProfileOf(profiles: map<string, Requirements>, sensorType: string): Requirements {
    if sensorType in profiles then profiles[sensorType] else FALLBACK
  }

  class TaskManager {
    var created: nat
    var processed: nat
    var counter: nat
    var queue: seq<Task>
    var forwarding: bool  // the controller's callback is registered: it queues every new task here
    ghost var issued: seq<string>

    /** The ids handed out are those of the counters 1, 2, and so on. */
    ghost predicate Valid()
      reads this
    {
      |issued| == counter && created <= counter && forall k :: 0 <= k < |issued| ==> issued[k] == TaskId(k + 1)
    }

    constructor ()
      ensures Valid() && created == processed == counter == 0 && queue == [] && !forwarding && issued == []
    {
      created, processed, counter, queue, forwarding, issued := 0, 0, 0, [], false, [];
    }

    method SetForwarding(value: bool)
      modifies this`forwarding
      ensures forwarding == value
    {
      forwarding := value;
    }

    /** A fresh id, different from every id issued before. */
    method GenerateTaskId() returns (id: string)
      requires Valid()
      modifies this`counter, this`issued
      ensures Valid() && counter == old(counter) + 1 && issued == old(issued) + [id]
      ensures id == TaskId(counter) && id !in old(issued)
    {
      counter := counter + 1;
      id := TaskId(counter);
      forall k | 0 <= k < |issued| ensures issued[k] != id {
        IdsAreInjective(k + 1, counter);
      }
      issued := issued + [id];
    }

    /**
     A new task carries the number of the counter it was created with and its sensor type's requirements, and is
     queued exactly when the callback is registered.
     */
    method CreateTask(profiles: map<string, Requirements>, sensorType: string, now: real)
      returns (task: Task, id: string)
      requires Valid()
      modifies this`counter, this`issued, this`created, this`queue
      ensures Valid() && fresh(task) && counter == old(counter) + 1 && created == old(created) + 1
      ensures task.data == TaskData(old(counter), task.data.req, now)
      ensures sensorType in profiles ==> task.data.req == profiles[sensorType]
      ensures sensorType !in profiles ==>
        task.data.req.demand == Vec(5.0, 20.0, 0.5) && task.data.req.deadline == 1000 && task.data.req.priority == Low
      ensures task.status == Created && task.edge == None
      ensures id == TaskId(counter) && id !in old(issued) && issued == old(issued) + [id]
      ensures queue == if forwarding then old(queue) + [task] else old(queue)
    {
      id := GenerateTaskId();
      task := new Task(TaskData(counter - 1, ProfileOf(profiles, sensorType), now));
      created := created + 1;
      if forwarding {
        EnqueueTask(task);
      }
    }

    method EnqueueTask(task: Task)
      modifies this`queue
      ensures queue == old(queue) + [task]
    {
      queue := queue + [task];
    }

    method DequeueTask() returns (task: Task?)
      modifies this`queue, this`processed
      ensures old(queue) == [] ==> task == null && queue == [] && processed == old(processed)
      ensures old(queue) != [] ==> task == old(queue)[0] && queue == old(queue)[1..] && processed == old(processed) + 1
    {
      if queue == [] {
        return null;
      }
      task := queue[0];
      queue := queue[1..];
      processed := processed + 1;
    }
  }

  /** No id occurs twice among those a manager ever issued. */
  lemma IssuedIdsAreDistinct(m: TaskManager)
    requires m.Valid()
    ensures forall i, j :: 0 <= i < j < |m.issued| ==> m.issued[i] != m.issued[j]
  {
    forall i, j | 0 <= i < j < |m.issued| ensures m.issued[i] != m.issued[j] {
      IdsAreInjective(i + 1, j + 1);
    }
  }
}
