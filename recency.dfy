/** The recency registry of the scraper: a `collections.deque(maxlen=1000)`
    of item ids that is appended to and queried for membership, and whose
    oldest entry falls out when an append would exceed the bound. */
module Recency {

  /** `maxlen` of the deque. */
  const Capacity: nat := 1000

  /** What a bounded deque holds after every element of `appended` has been
      appended to it, in order, starting from empty: the newest
      min(|appended|, Capacity) of them, oldest first. */
  function Window<T>(appended: seq<T>): (w: seq<T>)
    ensures |w| == if |appended| <= Capacity then |appended| else Capacity
    ensures w == appended[|appended| - |w|..]
  {
    if |appended| <= Capacity then appended else appended[|appended| - Capacity..]
  }

  /** One `append` on a deque with `maxlen=Capacity`: the new element goes on
      the right, and when the deque is already full the leftmost (oldest)
      element is discarded. */
  function Push<T>(d: seq<T>, x: T): (r: seq<T>)
    requires |d| <= Capacity
    ensures |r| == if |d| < Capacity then |d| + 1 else Capacity
    ensures r[|r| - 1] == x
    ensures r[..|r| - 1] == d[|d| + 1 - |r|..]
  {
    if |d| < Capacity then d + [x] else d[1..] + [x]
  }

  /** Below the bound an append drops nothing. */
  lemma PushBelowCapacity<T>(d: seq<T>, x: T)
    requires |d| < Capacity
    ensures Push(d, x) == d + [x]
  {
  }

  /** Appending to the deque keeps it equal to the window of everything
      appended so far. */
  lemma PushWindow<T>(appended: seq<T>, x: T)
    ensures Push(Window(appended), x) == Window(appended + [x])
  {
    var w := Window(appended);
    var h := appended + [x];
    if |appended| < Capacity {
      assert w == appended;
    } else {
      assert Window(h) == h[|h| - Capacity..];
      assert Push(w, x) == w[1..] + [x];
      assert w[1..] == appended[|appended| - Capacity + 1..];
      assert h[|h| - Capacity..] == appended[|appended| - Capacity + 1..] + [x];
    }
  }

  /** Membership in the deque: an element is present exactly when it was one
      of the last Capacity appended, so an element never appended is never
      reported and one appended longer ago than that is forgotten. */
  lemma InWindowIffRecent<T>(appended: seq<T>, x: T)
    ensures x in Window(appended) <==>
            exists i :: |appended| - Capacity <= i < |appended| && 0 <= i && appended[i] == x
  {
    var w := Window(appended);
    var off := |appended| - |w|;
    if x in w {
      var k :| 0 <= k < |w| && w[k] == x;
      assert appended[off + k] == x;
    }
    if exists i :: |appended| - Capacity <= i < |appended| && 0 <= i && appended[i] == x {
      var i :| |appended| - Capacity <= i < |appended| && 0 <= i && appended[i] == x;
      assert w[i - off] == x;
    }
  }

  /** Every two appends of the same element are more than Capacity appends
      apart: the trace left by a caller that appends only elements the deque
      does not hold. */
  ghost predicate Spaced<T>(appended: seq<T>)
  {
    forall i, j :: 0 <= i < j < |appended| && appended[i] == appended[j] ==> j - i > Capacity
  }

  /** Appending only elements absent from the deque keeps the trace spaced. */
  lemma SpacedAppendFresh<T>(appended: seq<T>, x: T)
    requires Spaced(appended)
    requires x !in Window(appended)
    ensures Spaced(appended + [x])
  {
    var h := appended + [x];
    forall i, j | 0 <= i < j < |h| && h[i] == h[j]
      ensures j - i > Capacity
    {
      if j == |appended| {
        InWindowIffRecent(appended, x);
        assert appended[i] == x;
      }
    }
  }

  /** A spaced trace holds no element twice among any Capacity + 1
      consecutive appends. */
  lemma SpacedSegmentDistinct<T>(appended: seq<T>, lo: nat, i: nat, j: nat)
    requires Spaced(appended)
    requires lo <= i < j < |appended| && j - lo <= Capacity
    ensures appended[i] != appended[j]
  {
  }

  /** The deque itself: a class whose `items` is what the Python deque holds,
      and whose ghost `Appended` is every element ever appended to it. */
  class Registry<T(==)> {
    var items: seq<T>
    ghost var Appended: seq<T>

    ghost predicate Valid()
      reads this
    {
      items == Window(Appended)
    }

    /** `collections.deque(maxlen=1000)`. */
    constructor ()
      ensures Valid() && items == [] && Appended == []
    {
      items := [];
      Appended := [];
    }

    /** `deque.append(x)`. */
    method Append(x: T)
      requires Valid()
      modifies this
      ensures Valid()
      ensures Appended == old(Appended) + [x]
      ensures items == Push(old(items), x)
    {
      PushWindow(Appended, x);
      if |items| < Capacity {
        items := items + [x];
      } else {
        items := items[1..] + [x];
      }
      Appended := Appended + [x];
    }
  }
}
