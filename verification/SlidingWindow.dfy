/** Times of past events, the pruned deques that remember only the recent ones, and counting
    inside a closed window. Clock readings are reals, as in `time.monotonic()`. */
module SlidingWindow {
  import opened Common

  ghost predicate Sorted(s: seq<real>) {
    forall i, j :: 0 <= i < j < |s| ==> s[i] <= s[j]
  }

  /** How many of these times lie in the closed interval [from, to]. */
  ghost function CountIn(s: seq<real>, from: real, to: real): nat {
    if s == [] then 0 else
    CountIn(DropLast(s), from, to) + if from <= Last(s) <= to then 1 else 0
  }

  /** `while hits and now - hits[0] > window: hits.popleft()`. */
  function Prune(s: seq<real>, now: real, window: real): seq<real> {
    if s == [] || now - s[0] <= window then s else Prune(s[1..], now, window)
  }

  method PruneLoop(s: seq<real>, now: real, window: real) returns (r: seq<real>)
    ensures r == Prune(s, now, window)
  {
    r := s;
    while r != [] && now - r[0] > window
      invariant Prune(r, now, window) == Prune(s, now, window)
      decreases |r|
    {
      r := r[1..];
    }
  }

  /** The deque is a full history without some leading times that have left the window. */
  ghost predicate Remembers(deque: seq<real>, full: seq<real>, clock: real, window: real) {
    && Sorted(full) && (forall i :: 0 <= i < |full| ==> full[i] <= clock)
    && |deque| <= |full| && deque == full[|full| - |deque|..]
    && forall i :: 0 <= i < |full| - |deque| ==> clock - full[i] > window
  }

  lemma {:induction false} CountNone(s: seq<real>, from: real, to: real)
    requires forall i :: 0 <= i < |s| ==> !(from <= s[i] <= to)
    ensures CountIn(s, from, to) == 0
  {
    if s != [] {
      assert forall i :: 0 <= i < |DropLast(s)| ==> DropLast(s)[i] == s[i];
      CountNone(DropLast(s), from, to);
    }
  }

  lemma {:induction false} CountAll(s: seq<real>, from: real, to: real)
    requires forall i :: 0 <= i < |s| ==> from <= s[i] <= to
    ensures CountIn(s, from, to) == |s|
  {
    if s != [] {
      assert forall i :: 0 <= i < |DropLast(s)| ==> DropLast(s)[i] == s[i];
      CountAll(DropLast(s), from, to);
    }
  }

  lemma {:induction false} CountConcat(s: seq<real>, t: seq<real>, from: real, to: real)
    ensures CountIn(s + t, from, to) == CountIn(s, from, to) + CountIn(t, from, to)
  {
    if t == [] {
      assert s + t == s;
    } else {
      CountConcat(s, DropLast(t), from, to);
      assert DropLast(s + t) == s + DropLast(t) && Last(s + t) == Last(t);
    }
  }

  lemma SplitCount(s: seq<real>, k: nat, from: real, to: real)
    requires k <= |s|
    ensures CountIn(s, from, to) == CountIn(s[..k], from, to) + CountIn(s[k..], from, to)
  {
    CountConcat(s[..k], s[k..], from, to);
    assert s == s[..k] + s[k..];
  }

  lemma NothingToPrune(deque: seq<real>, full: seq<real>, now: real, window: real)
    requires Remembers(deque, full, now, window) && (deque == [] || now - deque[0] <= window)
    ensures |deque| == CountIn(full, now - window, now)
  {
    var k := |full| - |deque|;
    SplitCount(full, k, now - window, now);
    CountNone(full[..k], now - window, now);
    forall i | 0 <= i < |deque| ensures now - window <= deque[i] <= now {
      assert deque[i] == full[k + i] && deque[0] == full[k];
    }
    CountAll(full[k..], now - window, now);
  }

  /** Pruning a deque and its history at a later time: the length of what is left is the number
      of all events inside the window. */
  lemma {:induction false} PruneCounts(deque: seq<real>, full: seq<real>, clock: real, now: real, window: real)
    requires Remembers(deque, full, clock, window) && clock <= now
    ensures var p := Prune(deque, now, window);
            Remembers(p, full, now, window) && |p| == CountIn(full, now - window, now)
    decreases |deque|
  {
    LaterClock(deque, full, clock, now, window);
    if deque == [] || now - deque[0] <= window {
      NothingToPrune(deque, full, now, window);
    } else {
      PruneCounts(deque[1..], full, now, now, window);
    }
  }

  lemma LaterClock(deque: seq<real>, full: seq<real>, clock: real, now: real, window: real)
    requires Remembers(deque, full, clock, window) && clock <= now
    ensures Remembers(deque, full, now, window)
  {
  }

  /** More than `n` events are never as close together as the window is long. */
  ghost predicate Spaced(s: seq<real>, n: nat, window: real) {
    forall i, j :: 0 <= i && j == i + n && j < |s| ==> s[j] - s[i] > window
  }

  /** If the last `n` events are all inside the window, at least `n` are. */
  lemma LastInside(s: seq<real>, n: nat, now: real, window: real)
    requires Sorted(s) && n <= |s| && (n > 0 ==> now - s[|s| - n] <= window)
    requires forall i :: 0 <= i < |s| ==> s[i] <= now
    ensures CountIn(s, now - window, now) >= n
  {
    var k := |s| - n;
    forall i | 0 <= i < n ensures now - window <= s[k..][i] <= now {
      assert s[k] <= s[k + i];
    }
    CountAll(s[k..], now - window, now);
    SplitCount(s, k, now - window, now);
  }

  lemma SpacedAppend(s: seq<real>, n: nat, now: real, window: real)
    requires Sorted(s) && Spaced(s, n, window) && CountIn(s, now - window, now) < n
    requires forall i :: 0 <= i < |s| ==> s[i] <= now
    ensures Spaced(s + [now], n, window)
  {
    if |s| >= n && now - s[|s| - n] <= window {
      LastInside(s, n, now, window);
    }
  }

  /** The events before the last `n` are too early for a window that holds the last one. */
  lemma EarlierOutside(s: seq<real>, n: nat, window: real, from: real)
    requires Sorted(s) && Spaced(s, n, window) && 0 < n < |s| && s[|s| - 1] <= from + window
    ensures CountIn(s[..|s| - n], from, from + window) == 0
  {
    var k := |s| - n;
    assert s[|s| - 1] - s[k - 1] > window;
    forall i | 0 <= i < k ensures !(from <= s[..k][i] <= from + window) {
      assert s[i] <= s[k - 1];
    }
    CountNone(s[..k], from, from + window);
  }

  lemma {:induction false} SpacedBound(s: seq<real>, n: nat, window: real, from: real)
    requires Sorted(s) && Spaced(s, n, window)
    ensures CountIn(s, from, from + window) <= n
    decreases |s|
  {
    CountLength(s, from, from + window);
    if |s| > n {
      if s[|s| - 1] <= from + window {
        SpacedInside(s, n, window, from);
      } else {
        PrefixSpaced(s, n, window);
        SpacedBound(DropLast(s), n, window, from);
      }
    }
  }

  /** The last of the events is inside the window: only the last `n` can be. */
  lemma SpacedInside(s: seq<real>, n: nat, window: real, from: real)
    requires Sorted(s) && Spaced(s, n, window) && n < |s| && s[|s| - 1] <= from + window
    ensures CountIn(s, from, from + window) <= n
  {
    if n == 0 {
      var last := s[|s| - 1];
      assert last - last > window;
      CountNone(s, from, from + window);
    } else {
      EarlierOutside(s, n, window, from);
      SplitCount(s, |s| - n, from, from + window);
      CountLength(s[|s| - n..], from, from + window);
    }
  }

  lemma PrefixSpaced(s: seq<real>, n: nat, window: real)
    requires s != [] && Sorted(s) && Spaced(s, n, window)
    ensures Sorted(DropLast(s)) && Spaced(DropLast(s), n, window)
  {
  }

  /** A cap given as an integer; below zero it admits nothing. */
  function Cap(max: int): nat {
    if max > 0 then max else 0
  }

  /** One admission decision taken on the pruned deque: it is the decision full history calls
      for, and deque and history stay related and spaced out. */
  lemma Admission(deque: seq<real>, full: seq<real>, now: real, window: real, max: int)
    requires Remembers(deque, full, now, window) && Spaced(full, Cap(max), window)
    ensures var p := Prune(deque, now, window);
            && |p| == CountIn(full, now - window, now)
            && if |p| >= max then Remembers(p, full, now, window)
               else Remembers(p + [now], full + [now], now, window) && Spaced(full + [now], Cap(max), window)
  {
    PruneCounts(deque, full, now, now, window);
    var p := Prune(deque, now, window);
    if |p| < max {
      SpacedAppend(full, Cap(max), now, window);
    }
  }

  lemma {:induction false} CountLength(s: seq<real>, from: real, to: real)
    ensures CountIn(s, from, to) <= |s|
  {
    if s != [] { CountLength(DropLast(s), from, to); }
  }
}
