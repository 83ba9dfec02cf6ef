/** `CounterService`: the number of clients online. The service object is
    a `Counter` value; each method returns the new value together with the
    method's own result. The count is a JavaScript number that only ever
    moves by one from 0, so it is modelled as an unbounded integer. */
module CounterService {

  datatype Counter = Counter(onlineCount: int)

  /** An update's outcome: the counter afterwards and the count returned. */
  datatype Counted = Counted(counter: Counter, count: int)

  /** A fresh service counts nobody. */
  function Init(): (c: Counter)
    ensures c.onlineCount == 0
  {
    Counter(0)
  }

  /** `incrementCount()`: one more, and the new count. */
  function IncrementCount(c: Counter): (r: Counted)
    ensures r.counter.onlineCount == c.onlineCount + 1
    ensures r.count == r.counter.onlineCount
  {
    var c' := c.(onlineCount := c.onlineCount + 1);
    Counted(c', c'.onlineCount)
  }

  /** `decrementCount()`: one fewer unless already at zero, and the new
      count. */
  function DecrementCount(c: Counter): (r: Counted)
    ensures c.onlineCount > 0 ==> r.counter.onlineCount == c.onlineCount - 1
    ensures c.onlineCount <= 0 ==> r.counter == c
    ensures r.count == r.counter.onlineCount
    // it never takes a non-negative count below zero
    ensures c.onlineCount >= 0 ==> r.count >= 0
  {
    var c' := if c.onlineCount > 0 then c.(onlineCount := c.onlineCount - 1) else c;
    Counted(c', c'.onlineCount)
  }

  /** `getCount()`: a read; the counter is a value, so nothing can change. */
  function GetCount(c: Counter): int {
    c.onlineCount
  }

  /** What `incrementCount` and `decrementCount` return is what `getCount`
      reads right after them. */
  lemma ReturnedIsCount(c: Counter)
    ensures IncrementCount(c).count == GetCount(IncrementCount(c).counter)
    ensures DecrementCount(c).count == GetCount(DecrementCount(c).counter)
  {
  }

  /** Incrementing and then decrementing gives a non-negative counter
      back. */
  lemma IncrementThenDecrement(c: Counter)
    requires c.onlineCount >= 0
    ensures DecrementCount(IncrementCount(c).counter).counter == c
  {
  }
}
