/**
 Picking the first best element of a sequence, removing it, and doing so until nothing is left.
 Schedulers and allocators both select this way.
 */
module Selection {

  function RemoveAt<T>(q: seq<T>, i: nat): (r: seq<T>)
    requires i < |q|
    ensures |r| == |q| - 1
  {
    q[..i] + q[i + 1..]
  }

  lemma SplitAround<T>(q: seq<T>, i: nat)
    requires i < |q|
    ensures q == q[..i] + ([q[i]] + q[i + 1..])
  {
  }

  lemma RemoveAtKeepsTheRest<T>(q: seq<T>, i: nat)
    requires i < |q|
    ensures multiset(q) == multiset(RemoveAt(q, i)) + multiset{q[i]}
  {
    assert q == q[..i] + [q[i]] + q[i + 1..];
  }

  /** The result of a left-to-right scan that moves only to a strictly smaller key. */
  function FirstLeast<T>(q: seq<T>, key: T -> real): (b: nat)
    requires q != []
    ensures b < |q|
    ensures forall j :: 0 <= j < |q| ==> key(q[b]) <= key(q[j])
    ensures forall j :: 0 <= j < b ==> key(q[b]) < key(q[j])
  {
    if |q| == 1 then 0
    else
      var b := FirstLeast(q[..|q| - 1], key);
      if key(q[|q| - 1]) < key(q[b]) then |q| - 1 else b
  }

  lemma FirstLeastUnique<T>(q: seq<T>, key: T -> real, b: nat)
    requires b < |q|
    requires forall j :: 0 <= j < |q| ==> key(q[b]) <= key(q[j])
    requires forall j :: 0 <= j < b ==> key(q[b]) < key(q[j])
    ensures FirstLeast(q, key) == b
  {
    var c := FirstLeast(q, key);
    assert key(q[c]) <= key(q[b]) && key(q[b]) <= key(q[c]);
  }

  /** Only the order of the keys matters. */
  lemma {:induction false} SameOrderSamePick<T>(q: seq<T>, key: T -> real, key': T -> real)
    requires q != []
    requires forall i, j :: 0 <= i < |q| && 0 <= j < |q| ==> (key(q[i]) < key(q[j]) <==> key'(q[i]) < key'(q[j]))
    ensures FirstLeast(q, key) == FirstLeast(q, key')
  {
    FirstLeastUnique(q, key', FirstLeast(q, key));
  }

  /** Repeatedly removing the first least element. */
  function Drain<T>(q: seq<T>, key: T -> real): seq<T>
    decreases |q|
  {
    if q == [] then [] else
      var i := FirstLeast(q, key);
      [q[i]] + Drain(RemoveAt(q, i), key)
  }

  ghost predicate SortedBy<T>(q: seq<T>, key: T -> real) {
    forall i, j :: 0 <= i < j < |q| ==> key(q[i]) <= key(q[j])
  }

  /** The elements of q whose key is k, in order. */
  function WithKey<T>(q: seq<T>, key: T -> real, k: real): seq<T> {
    if q == [] then [] else (if key(q[0]) == k then [q[0]] else []) + WithKey(q[1..], key, k)
  }

  /** r is a stable sort of q: sorted, and elements of equal key keep their order. */
  ghost predicate IsStableSort<T>(r: seq<T>, q: seq<T>, key: T -> real) {
    SortedBy(r, key) && forall k :: WithKey(r, key, k) == WithKey(q, key, k)
  }

  lemma ConcatIsAssociative<T>(a: seq<T>, b: seq<T>, c: seq<T>)
    ensures (a + b) + c == a + (b + c)
  {
  }

  lemma SwapWithEmpty<T>(a: seq<T>, b: seq<T>, c: seq<T>)
    requires a == [] || b == []
    ensures a + (b + c) == b + (a + c)
  {
    if a == [] {
      assert a + (b + c) == b + c && a + c == c;
    } else {
      assert b + (a + c) == a + c && b + c == c;
    }
  }

  lemma {:induction false} WithKeyOfConcat<T>(p: seq<T>, q: seq<T>, key: T -> real, k: real)
    ensures WithKey(p + q, key, k) == WithKey(p, key, k) + WithKey(q, key, k)
  {
    if p == [] {
      assert p + q == q;
    } else {
      assert (p + q)[0] == p[0] && (p + q)[1..] == p[1..] + q;
      WithKeyOfConcat(p[1..], q, key, k);
      ConcatIsAssociative(if key(p[0]) == k then [p[0]] else [], WithKey(p[1..], key, k), WithKey(q, key, k));
    }
  }

  lemma {:induction false} WithKeyAbsent<T>(q: seq<T>, key: T -> real, k: real)
    requires forall i :: 0 <= i < |q| ==> key(q[i]) != k
    ensures WithKey(q, key, k) == []
  {
    if q != [] {
      WithKeyAbsent(q[1..], key, k);
    }
  }

  lemma {:induction false} WithKeyMembers<T>(q: seq<T>, key: T -> real, k: real)
    ensures forall x :: x in WithKey(q, key, k) <==> x in q && key(x) == k
  {
    if q != [] {
      WithKeyMembers(q[1..], key, k);
    }
  }

  /** Moving an element to the front past elements of other keys keeps every class of equal keys in order. */
  lemma MoveToFront<T>(before: seq<T>, x: T, after: seq<T>, key: T -> real, k: real)
    requires forall i :: 0 <= i < |before| ==> key(before[i]) != key(x)
    ensures WithKey(before + ([x] + after), key, k) == WithKey([x], key, k) + WithKey(before + after, key, k)
  {
    WithKeyOfConcat(before, [x] + after, key, k);
    WithKeyOfConcat([x], after, key, k);
    WithKeyOfConcat(before, after, key, k);
    if key(x) == k {
      WithKeyAbsent(before, key, k);
    } else {
      WithKeyAbsent([x], key, k);
    }
    SwapWithEmpty(WithKey(before, key, k), WithKey([x], key, k), WithKey(after, key, k));
  }

  lemma FirstLeastToFront<T>(q: seq<T>, key: T -> real, k: real)
    requires q != []
    ensures var i := FirstLeast(q, key);
            WithKey(q, key, k) == WithKey([q[i]], key, k) + WithKey(RemoveAt(q, i), key, k)
  {
    var i := FirstLeast(q, key);
    assert q == q[..i] + ([q[i]] + q[i + 1..]);
    MoveToFront(q[..i], q[i], q[i + 1..], key, k);
  }

  lemma {:induction false} DrainMembers<T>(q: seq<T>, key: T -> real)
    ensures multiset(Drain(q, key)) == multiset(q)
    decreases |q|
  {
    if q != [] {
      var i := FirstLeast(q, key);
      DrainMembers(RemoveAt(q, i), key);
      RemoveAtKeepsTheRest(q, i);
    }
  }

  lemma {:induction false} DrainSorted<T>(q: seq<T>, key: T -> real)
    ensures SortedBy(Drain(q, key), key)
    decreases |q|
  {
    if q != [] {
      var i := FirstLeast(q, key);
      var rest := RemoveAt(q, i);
      DrainSorted(rest, key);
      var tail := Drain(rest, key);
      DrainMembers(rest, key);
      forall j | 0 <= j < |tail| ensures key(q[i]) <= key(tail[j]) {
        assert tail[j] in multiset(tail);
        assert tail[j] in rest;
      }
    }
  }

  lemma {:induction false} DrainKeepsClasses<T>(q: seq<T>, key: T -> real, k: real)
    ensures WithKey(Drain(q, key), key, k) == WithKey(q, key, k)
    decreases |q|
  {
    if q != [] {
      var i := FirstLeast(q, key);
      DrainKeepsClasses(RemoveAt(q, i), key, k);
      FirstLeastToFront(q, key, k);
      WithKeyOfConcat([q[i]], Drain(RemoveAt(q, i), key), key, k);
    }
  }

  /** Draining by first least is a stable sort... */
  lemma DrainIsStableSort<T>(q: seq<T>, key: T -> real)
    ensures IsStableSort(Drain(q, key), q, key)
  {
    DrainSorted(q, key);
    forall k ensures WithKey(Drain(q, key), key, k) == WithKey(q, key, k) {
      DrainKeepsClasses(q, key, k);
    }
  }

  lemma HeadHasAClass<T>(q: seq<T>, key: T -> real)
    requires q != []
    ensures WithKey(q, key, key(q[0])) != []
  {
  }

  /** ...and there is only one. */
  lemma {:induction false} StableSortUnique<T>(r: seq<T>, s: seq<T>, key: T -> real)
    requires SortedBy(r, key) && SortedBy(s, key)
    requires forall k :: WithKey(r, key, k) == WithKey(s, key, k)
    ensures r == s
  {
    if r == [] || s == [] {
      if r != [] {
        HeadHasAClass(r, key);
      }
      if s != [] {
        HeadHasAClass(s, key);
      }
    } else {
      var a, b := key(r[0]), key(s[0]);
      WithKeyMembers(r, key, b);
      WithKeyMembers(s, key, a);
      assert r[0] in WithKey(s, key, a) by {
        assert WithKey(r, key, a)[0] == r[0];
      }
      assert s[0] in WithKey(r, key, b) by {
        assert WithKey(s, key, b)[0] == s[0];
      }
      assert a == b;
      assert WithKey(r, key, a)[0] == r[0] && WithKey(s, key, a)[0] == s[0];
      forall k ensures WithKey(r[1..], key, k) == WithKey(s[1..], key, k) {
        assert WithKey(r, key, k) == WithKey(s, key, k);
        var n := if a == k then 1 else 0;
        assert WithKey(r, key, k)[n..] == WithKey(r[1..], key, k);
        assert WithKey(s, key, k)[n..] == WithKey(s[1..], key, k);
      }
      StableSortUnique(r[1..], s[1..], key);
    }
  }
}
