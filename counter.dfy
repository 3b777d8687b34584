/**
 * The counter of the testing demo: one integer that starts at the
 * `initialCount` property (0 when it is not given) and moves by one per
 * click of the increment or decrement button, without bounds.
 */
module Counter {

  datatype Click = Inc | Dec

  function Step(count: int, c: Click): int {
    match c
    case Inc => count + 1
    case Dec => count - 1
  }

  /** The count after the clicks, first to last. */
  function Run(count: int, clicks: seq<Click>): int
    decreases |clicks|
  {
    if clicks == [] then count else Run(Step(count, clicks[0]), clicks[1..])
  }

  /** After n increments and m decrements, in any order, the count has moved by n - m. */
  lemma {:induction false} RunCounts(count: int, clicks: seq<Click>)
    ensures Run(count, clicks) == count + multiset(clicks)[Inc] - multiset(clicks)[Dec]
    decreases |clicks|
  {
    if clicks != [] {
      assert clicks == [clicks[0]] + clicks[1..];
      assert multiset(clicks) == multiset{clicks[0]} + multiset(clicks[1..]);
      RunCounts(Step(count, clicks[0]), clicks[1..]);
    }
  }

  /** Only how many clicks of each kind there were matters, not their order. */
  lemma RunOrderIrrelevant(count: int, a: seq<Click>, b: seq<Click>)
    requires multiset(a) == multiset(b)
    ensures Run(count, a) == Run(count, b)
  {
    RunCounts(count, a);
    RunCounts(count, b);
  }

  /** An increment and a decrement, in either order, cancel out. */
  lemma IncDecCancel(count: int)
    ensures Run(count, [Inc, Dec]) == count
    ensures Run(count, [Dec, Inc]) == count
  {
    RunCounts(count, [Inc, Dec]);
    RunCounts(count, [Dec, Inc]);
  }

  /** No clamping at zero. */
  lemma DecrementBelowZero()
    ensures Run(0, [Dec]) == -1
  {
    RunCounts(0, [Dec]);
  }

  class Counter {
    var count: int

    /** `useState(initialCount)`. */
    constructor (initialCount: int)
      ensures count == initialCount
    {
      count := initialCount;
    }

    /** The component rendered without `initialCount`. */
    constructor Default()
      ensures count == 0
    {
      count := 0;
    }

    method Increment()
      modifies this
      ensures count == Step(old(count), Inc) == old(count) + 1
    {
      count := count + 1;
    }

    method Decrement()
      modifies this
      ensures count == Step(old(count), Dec) == old(count) - 1
    {
      count := count - 1;
    }
  }

  /** The four scenarios of the component's tests, as a client of the class. */
  method TestScenarios()
  {
    var c := new Counter.Default();
    assert c.count == 0;

    var d := new Counter(5);
    assert d.count == 5;

    var e := new Counter.Default();
    e.Increment();
    assert e.count == 1;
    e.Increment();
    assert e.count == 2;

    var f := new Counter(3);
    f.Decrement();
    assert f.count == 2;
    f.Decrement();
    assert f.count == 1;
  }
}
