/** Fixed-capacity queues, as Python's `deque(maxlen=cap)` behaves. */
module Bounded {

  /** `deque.append` on a deque of maximum length `cap`: the new element goes
      at the right end and, once the deque is full, the leftmost (oldest)
      element is dropped. */
  function Append<T>(q: seq<T>, x: T, cap: nat): (r: seq<T>)
    ensures |q| <= cap ==> |r| <= cap
    ensures cap > 0 ==> |r| > 0 && r[|r| - 1] == x
    ensures |q| < cap ==> r == q + [x]
    ensures 0 < cap == |q| ==> r == q[1..] + [x]
  {
    var all := q + [x];
    if |all| <= cap then all else all[|all| - cap..]
  }

  /** `deque.appendleft` on a deque of maximum length `cap`: the new element
      goes at the left end and, once the deque is full, the rightmost
      element is dropped. */
  function AppendLeft<T>(q: seq<T>, x: T, cap: nat): (r: seq<T>)
    ensures |q| <= cap ==> |r| <= cap
    ensures cap > 0 ==> |r| > 0 && r[0] == x
    ensures |q| < cap ==> r == [x] + q
    ensures 0 < cap == |q| ==> r == [x] + q[..cap - 1]
  {
    var all := [x] + q;
    if |all| <= cap then all else all[..cap]
  }
}
