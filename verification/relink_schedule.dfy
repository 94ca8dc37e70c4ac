/**
  The relink schedule (relink_interval_ms_vec_): the waits, in
  milliseconds, before each reconnect attempt. AddRelinkInterval appends
  and then sorts with std::sort; the sort is modelled by insertion, and
  SortedUnique shows that any sort of the same values gives the same
  sequence.
*/
module RelinkSchedule {
  import opened Bytes

  /** The schedule never grows past five entries. */
  const MaxEntries: int := 5

  /** Ascending order. */
  predicate Sorted(v: seq<int32>) {
    forall i, j :: 0 <= i < j < |v| ==> v[i] <= v[j]
  }

  /** Every value in v is at least m. */
  predicate AllAtLeast(v: seq<int32>, m: int32) {
    forall i :: 0 <= i < |v| ==> m <= v[i]
  }

  lemma AllAtLeastOfMultiset(v: seq<int32>, w: seq<int32>, m: int32)
    requires multiset(v) == multiset(w) && AllAtLeast(w, m)
    ensures AllAtLeast(v, m)
  {
    forall i | 0 <= i < |v| ensures m <= v[i] {
      assert v[i] in multiset(w);
    }
  }

  /** x put into the sorted v in front of the first value not below it. */
  function Insert(v: seq<int32>, x: int32): (r: seq<int32>)
    requires Sorted(v)
    ensures Sorted(r) && |r| == |v| + 1
    ensures multiset(r) == multiset(v) + multiset{x}
    decreases |v|
  {
    if |v| == 0 then [x]
    else if x <= v[0] then [x] + v
    else
      var t := Insert(v[1..], x);
      InsertBehindHead(v, x, t);
      [v[0]] + t
  }

  /** Putting the head of v back in front of a sorted permutation of its rest and x. */
  lemma InsertBehindHead(v: seq<int32>, x: int32, t: seq<int32>)
    requires Sorted(v) && |v| > 0 && v[0] < x
    requires Sorted(t) && multiset(t) == multiset(v[1..]) + multiset{x}
    ensures Sorted([v[0]] + t)
    ensures multiset([v[0]] + t) == multiset(v) + multiset{x}
  {
    assert v == [v[0]] + v[1..];
    assert AllAtLeast([x] + v[1..], v[0]);
    assert multiset(t) == multiset([x] + v[1..]);
    AllAtLeastOfMultiset(t, [x] + v[1..], v[0]);
  }

  /** std::sort on the values of v: a sorted permutation of them. */
  function SortSeq(v: seq<int32>): (r: seq<int32>)
    ensures Sorted(r) && multiset(r) == multiset(v)
    decreases |v|
  {
    if |v| == 0 then []
    else
      assert v == v[..|v| - 1] + [v[|v| - 1]];
      Insert(SortSeq(v[..|v| - 1]), v[|v| - 1])
  }

  /** A sorted sequence is determined by its values, so every correct sort agrees with SortSeq. */
  lemma {:induction false} SortedUnique(a: seq<int32>, b: seq<int32>)
    requires Sorted(a) && Sorted(b) && multiset(a) == multiset(b)
    ensures a == b
    decreases |a|
  {
    if |a| == 0 {
      assert |multiset(b)| == 0;
    } else {
      SameFirst(a, b);
      SortedUnique(a[1..], b[1..]);
      assert a == [a[0]] + a[1..] && b == [b[0]] + b[1..];
    }
  }

  /** Two sorted permutations start with the same value and have sorted permuted rests. */
  lemma SameFirst(a: seq<int32>, b: seq<int32>)
    requires Sorted(a) && Sorted(b) && multiset(a) == multiset(b) && |a| > 0
    ensures |b| > 0 && a[0] == b[0]
    ensures Sorted(a[1..]) && Sorted(b[1..]) && multiset(a[1..]) == multiset(b[1..])
  {
    assert |b| > 0 by { assert a[0] in multiset(b); }
    assert b[0] <= a[0] by { InMin(b, a[0]); }
    assert a[0] <= b[0] by { InMin(a, b[0]); }
    SplitFirst(a);
    SplitFirst(b);
    RestPermutation(a, b);
  }

  /** Removing the same first value from two permutations leaves permutations. */
  lemma RestPermutation(a: seq<int32>, b: seq<int32>)
    requires |a| > 0 && |b| > 0 && a[0] == b[0] && multiset(a) == multiset(b)
    requires multiset(a) == multiset{a[0]} + multiset(a[1..])
    requires multiset(b) == multiset{b[0]} + multiset(b[1..])
    ensures multiset(a[1..]) == multiset(b[1..])
  {
    assert multiset(a[1..]) == multiset(a) - multiset{a[0]};
    assert multiset(b[1..]) == multiset(b) - multiset{b[0]};
  }

  /** A sorted sequence is its first value followed by a sorted rest. */
  lemma SplitFirst(v: seq<int32>)
    requires Sorted(v) && |v| > 0
    ensures v == [v[0]] + v[1..] && Sorted(v[1..])
    ensures multiset(v) == multiset{v[0]} + multiset(v[1..])
  {
    assert v == [v[0]] + v[1..];
  }

  /** A value of a sorted sequence is not below its first value. */
  lemma InMin(v: seq<int32>, x: int32)
    requires Sorted(v) && x in multiset(v)
    ensures |v| > 0 && v[0] <= x
  {
    assert x in v;
  }

  /** On an already sorted schedule, appending and sorting is inserting in place. */
  lemma SortAfterAppend(v: seq<int32>, x: int32)
    requires Sorted(v)
    ensures SortSeq(v + [x]) == Insert(v, x)
  {
    SortedUnique(SortSeq(v + [x]), Insert(v, x));
  }

  /**
    AddRelinkInterval(msec): an empty schedule is first seeded with 0; while
    it holds fewer than five entries msec is appended and the schedule is
    sorted; otherwise it is left as it is.
  */
  function AddInterval(v: seq<int32>, msec: int32): (r: seq<int32>)
    ensures |r| == if |v| == 0 then 2 else if |v| < MaxEntries then |v| + 1 else |v|
    ensures |v| < MaxEntries ==> Sorted(r)
    ensures |v| < MaxEntries ==>
              multiset(r) == multiset(if |v| == 0 then [0 as int32] else v) + multiset{msec}
    ensures |v| >= MaxEntries ==> r == v
  {
    var seeded := if |v| == 0 then [0 as int32] else v;
    if |seeded| < MaxEntries then SortSeq(seeded + [msec]) else seeded
  }

  /** With room left, the added value and the seed 0 are both in the schedule afterwards. */
  lemma AddedPresent(v: seq<int32>, msec: int32)
    requires |v| < MaxEntries
    ensures msec in AddInterval(v, msec)
    ensures |v| == 0 || 0 in v ==> 0 in AddInterval(v, msec)
  {
    var r := AddInterval(v, msec);
    assert msec in multiset(r);
    if |v| == 0 {
      assert 0 in multiset(r);
    } else if 0 in v {
      assert 0 in multiset(v);
      assert 0 in multiset(r);
    }
  }

  /** ClearRelinkInterval: the schedule becomes empty. */
  function ClearIntervals(v: seq<int32>): (r: seq<int32>)
    ensures |r| == 0
  {
    []
  }

  /** The schedule after a run of AddRelinkInterval calls. */
  function AddAll(v: seq<int32>, ms: seq<int32>): (r: seq<int32>)
    decreases |ms|
  {
    if |ms| == 0 then v else AddAll(AddInterval(v, ms[0]), ms[1..])
  }

  /**
    Starting from a cleared schedule, any run of additions leaves it sorted,
    holding 0 once anything was added, and never longer than five entries.
  */
  lemma {:induction false} ScheduleShape(v: seq<int32>, ms: seq<int32>)
    requires Sorted(v) && |v| <= MaxEntries && (|v| > 0 ==> 0 in v)
    ensures var r := AddAll(v, ms);
            && Sorted(r) && |r| <= MaxEntries
            && (|v| > 0 || |ms| > 0 ==> 0 in r)
    decreases |ms|
  {
    if |ms| > 0 {
      var v1 := AddInterval(v, ms[0]);
      if |v| < MaxEntries {
        var seeded := if |v| == 0 then [0 as int32] else v;
        assert 0 in multiset(seeded);
        assert 0 in multiset(v1);
      }
      ScheduleShape(v1, ms[1..]);
    }
  }

  /** One addition to a schedule with room, stated through the expected result. */
  lemma AddOne(v: seq<int32>, x: int32, want: seq<int32>)
    requires 0 < |v| < MaxEntries && Sorted(want) && multiset(want) == multiset(v) + multiset{x}
    ensures AddInterval(v, x) == want
  {
    SortedUnique(AddInterval(v, x), want);
  }

  /** The first addition seeds the schedule with 0. */
  lemma AddFirst(x: int32)
    requires 0 <= x
    ensures AddInterval([], x) == [0, x]
  {
    var want: seq<int32> := [0, x];
    assert multiset(want) == multiset([0 as int32] + [x]);
    SortedUnique(AddInterval([], x), want);
  }

  /** Two additions to an empty schedule, the larger first: 0 and both values, in ascending order. */
  lemma TwoAdditions(small: int32, large: int32)
    requires 0 < small < large
    ensures AddInterval(AddInterval([], large), small) == [0, small, large]
  {
    AddFirst(large);
    var v1 := AddInterval([], large);
    var want: seq<int32> := [0, small, large];
    assert Sorted(want);
    assert multiset(want) == multiset(v1) + multiset{small};
    AddOne(v1, small, want);
  }
}
