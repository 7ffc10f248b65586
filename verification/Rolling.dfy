/** Sorted timelines in which no window holds too many moments. */
module Rolling {

  ghost predicate Nondecreasing(times: seq<real>) {
    forall i, j :: 0 <= i < j < |times| ==> times[i] <= times[j]
  }

  /** The moment `limit` places later is beyond any window that starts here. */
  ghost predicate Spaced(times: seq<real>, limit: nat, window: real, closed: bool) {
    forall i, j :: 0 <= i && j == i + limit && j < |times| ==>
      if closed then times[j] - times[i] > window else times[j] - times[i] >= window
  }

  /** Places of the moments in [from, from + window], or in (from, from + window] when not closed. */
  ghost function Inside(times: seq<real>, from: real, window: real, closed: bool): set<nat> {
    set n: nat | n < |times| && times[n] <= from + window && (if closed then times[n] >= from else times[n] > from)
  }

  lemma {:induction false} IntervalBound(s: set<nat>, low: nat, size: nat)
    requires forall n <- s :: low <= n < low + size
    ensures |s| <= size
    decreases size
  {
    if size > 0 {
      var t := s - {low + size - 1};
      IntervalBound(t, low, size - 1);
      assert s <= t + {low + size - 1};
      SubsetSize(s, t + {low + size - 1});
    } else {
      assert s == {};
    }
  }

  lemma {:induction false} SubsetSize(s: set<nat>, t: set<nat>)
    requires s <= t
    ensures |s| <= |t|
    decreases s
  {
    if s != {} {
      var x :| x in s;
      SubsetSize(s - {x}, t - {x});
    }
  }

  /** Spacing bounds every window, wherever it starts. */
  lemma WindowBound(times: seq<real>, limit: nat, window: real, closed: bool, from: real)
    requires Nondecreasing(times) && Spaced(times, limit, window, closed) && window >= 0.0
    ensures |Inside(times, from, window, closed)| <= limit
  {
    var inside := Inside(times, from, window, closed);
    if inside != {} {
      var low := Least(inside);
      forall n <- inside
        ensures low <= n < low + limit
      {
        var far := low + limit;
        assert far < |times| ==> if closed then times[far] - times[low] > window else times[far] - times[low] >= window;
      }
      IntervalBound(inside, low, limit);
    }
  }

  lemma {:induction false} IntervalSize(s: set<nat>, low: nat, high: nat)
    requires low <= high && forall n: nat :: n in s <==> low <= n < high
    ensures |s| == high - low
    decreases high
  {
    if low < high {
      IntervalSize(s - {high - 1}, low, high - 1);
    } else {
      assert s == {};
    }
  }

  /** If exactly the first `dropped` moments fell out of the window that ends now, the rest are inside it. */
  lemma InsideSuffix(times: seq<real>, dropped: nat, now: real, window: real, closed: bool)
    requires dropped <= |times| && forall t <- times :: t <= now
    requires forall i :: 0 <= i < |times| ==>
               (i >= dropped <==> if closed then times[i] >= now - window else times[i] > now - window)
    ensures |Inside(times, now - window, window, closed)| == |times| - dropped
  {
    assert forall i :: 0 <= i < |times| ==> times[i] in times;
    IntervalSize(Inside(times, now - window, window, closed), dropped, |times|);
  }

  lemma {:induction false} Least(s: set<nat>) returns (low: nat)
    requires s != {}
    ensures low in s && forall n <- s :: low <= n
    decreases s
  {
    var x :| x in s;
    if s == {x} {
      low := x;
    } else {
      var y := Least(s - {x});
      low := if x <= y then x else y;
      assert forall n <- s :: n == x || n in s - {x};
    }
  }

  /** Appending a moment keeps the spacing if the window ending at it had room. */
  lemma SpacedAppend(times: seq<real>, t: real, limit: nat, window: real, closed: bool)
    requires Spaced(times, limit, window, closed)
    requires limit > 0 && (|times| >= limit ==>
               if closed then t - times[|times| - limit] > window else t - times[|times| - limit] >= window)
    ensures Spaced(times + [t], limit, window, closed)
  {
  }
}
