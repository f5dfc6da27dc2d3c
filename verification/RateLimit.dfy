/** The in-memory rate limiter: per key a deque of the recent allowed calls. */
module RateLimit {
  import opened Common
  import opened SlidingWindow

  type Hits = map<string, seq<real>>

  function HitsOf(hits: Hits, key: string): seq<real> {
    if key in hits then hits[key] else []
  }

  class RateLimiter {
    const maxAttempts: int
    const window: real
    var hits: Hits

    constructor (maxAttempts: int, window: real)
      ensures this.maxAttempts == maxAttempts && this.window == window && hits == map[]
    {
      this.maxAttempts, this.window, hits := maxAttempts, window, map[];
    }

    method Allow(key: string, now: real) returns (ok: bool)
      modifies this
      ensures (hits, ok) == AllowStep(old(hits), maxAttempts, window, key, now)
    {
      var recent := PruneLoop(HitsOf(hits, key), now, window);
      hits := hits[key := recent];
      if |recent| >= maxAttempts { return false; }
      hits := hits[key := recent + [now]];
      assert hits == old(hits)[key := recent + [now]];
      ok := true;
    }

    method Reset(key: string)
      modifies this
      ensures hits == old(hits) - {key}
    {
      hits := hits - {key};
    }
  }

  function AllowStep(hits: Hits, maxAttempts: int, window: real, key: string, now: real): (Hits, bool) {
    var recent := Prune(HitsOf(hits, key), now, window);
    if |recent| >= maxAttempts then (hits[key := recent], false) else (hits[key := recent + [now]], true)
  }

  // ---- Runs of calls --------------------------------------------------------------------

  datatype Limit = Limit(maxAttempts: int, window: real)

  datatype Call = Allow(key: string, now: real) | Reset(key: string)

  ghost function After(l: Limit, run: seq<Call>): Hits {
    if run == [] then map[] else
    var before := After(l, DropLast(run));
    match Last(run)
    case Allow(key, now) => AllowStep(before, l.maxAttempts, l.window, key, now).0
    case Reset(key) => before - {key}
  }

  /** What the run's last call was answered. */
  ghost predicate Allowed(l: Limit, run: seq<Call>)
    requires run != [] && Last(run).Allow?
  {
    AllowStep(After(l, DropLast(run)), l.maxAttempts, l.window, Last(run).key, Last(run).now).1
  }

  /** The whole history of one key: the times of its allowed calls since its last reset. */
  ghost function History(l: Limit, run: seq<Call>, key: string): seq<real> {
    if run == [] then [] else
    var before := History(l, DropLast(run), key);
    match Last(run)
    case Allow(k, now) => if k == key && Allowed(l, run) then before + [now] else before
    case Reset(k) => if k == key then [] else before
  }

  /** The clock never runs backwards. */
  ghost predicate Ordered(run: seq<Call>) {
    forall i, j :: 0 <= i < j < |run| && run[i].Allow? && run[j].Allow? ==> run[i].now <= run[j].now
  }

  ghost function Clock(run: seq<Call>): Option<real> {
    if run == [] then None
    else if Last(run).Allow? then Some(Last(run).now)
    else Clock(DropLast(run))
  }

  lemma {:induction false} ClockIsLatest(run: seq<Call>, now: real)
    requires forall i :: 0 <= i < |run| && run[i].Allow? ==> run[i].now <= now
    ensures Clock(run).Some? ==> Clock(run).value <= now
  {
    if run != [] && !Last(run).Allow? {
      assert forall i :: 0 <= i < |DropLast(run)| ==> DropLast(run)[i] == run[i];
      ClockIsLatest(DropLast(run), now);
    }
  }

  /** A deque remembers its history, and the history is spaced out. */
  ghost predicate Fits(l: Limit, deque: seq<real>, full: seq<real>, clock: Option<real>) {
    && Spaced(full, Cap(l.maxAttempts), l.window) && Sorted(full)
    && if clock.None? then deque == [] && full == [] else Remembers(deque, full, clock.value, l.window)
  }

  /** What is true of a key after every run. */
  ghost predicate Faithful(l: Limit, run: seq<Call>, key: string) {
    Fits(l, HitsOf(After(l, run), key), History(l, run, key), Clock(run))
  }

  lemma FitsLater(l: Limit, deque: seq<real>, full: seq<real>, clock: Option<real>, now: real)
    requires Fits(l, deque, full, clock) && (clock.Some? ==> clock.value <= now)
    ensures Fits(l, deque, full, Some(now)) && Remembers(deque, full, now, l.window)
  {
  }

  lemma FitsAllow(l: Limit, deque: seq<real>, full: seq<real>, now: real)
    requires Fits(l, deque, full, Some(now))
    ensures var p := Prune(deque, now, l.window);
            && |p| == CountIn(full, now - l.window, now)
            && if |p| >= l.maxAttempts then Fits(l, p, full, Some(now)) else Fits(l, p + [now], full + [now], Some(now))
  {
    Admission(deque, full, now, l.window, l.maxAttempts);
  }

  lemma AllowFaithful(l: Limit, run: seq<Call>, key: string, now: real)
    requires Faithful(l, run, key) && (Clock(run).Some? ==> Clock(run).value <= now)
    ensures Allowed(l, run + [Allow(key, now)]) <==> CountIn(History(l, run, key), now - l.window, now) < l.maxAttempts
    ensures Faithful(l, run + [Allow(key, now)], key)
  {
    var full, deque := History(l, run, key), HitsOf(After(l, run), key);
    FitsLater(l, deque, full, Clock(run), now);
    FitsAllow(l, deque, full, now);
  }

  lemma {:induction false} AlwaysFaithful(l: Limit, run: seq<Call>, key: string)
    requires Ordered(run)
    ensures Faithful(l, run, key)
  {
    if run != [] {
      var init, call := DropLast(run), Last(run);
      assert forall i :: 0 <= i < |init| ==> init[i] == run[i];
      AlwaysFaithful(l, init, key);
      assert run == init + [call];
      if call.Allow? { ClockIsLatest(init, call.now); }
      if call.Allow? && call.key == key {
        AllowFaithful(l, init, key, call.now);
      } else {
      }
    }
  }

  /** The pruned deque decides as the full history would: a call is allowed exactly when fewer
      than `maxAttempts` earlier allowed calls of its key lie within the window. */
  lemma DecidesByHistory(l: Limit, run: seq<Call>)
    requires Ordered(run) && run != [] && Last(run).Allow?
    ensures var key, now := Last(run).key, Last(run).now;
            Allowed(l, run) <==> CountIn(History(l, DropLast(run), key), now - l.window, now) < l.maxAttempts
  {
    var init, call := DropLast(run), Last(run);
    assert forall i :: 0 <= i < |init| ==> init[i] == run[i];
    AlwaysFaithful(l, init, call.key);
    ClockIsLatest(init, call.now);
    assert run == init + [call];
    AllowFaithful(l, init, call.key, call.now);
  }

  /** Between resets no closed window of that length holds more than `maxAttempts` allowed calls. */
  lemma WindowBound(l: Limit, run: seq<Call>, key: string, from: real)
    requires Ordered(run)
    ensures CountIn(History(l, run, key), from, from + l.window) <= Cap(l.maxAttempts)
  {
    AlwaysFaithful(l, run, key);
    SpacedBound(History(l, run, key), Cap(l.maxAttempts), l.window, from);
  }

  /** The calls about one key. */
  ghost function Only(run: seq<Call>, key: string): seq<Call> {
    if run == [] then [] else
    Only(DropLast(run), key) + if Last(run).key == key then [Last(run)] else []
  }

  lemma {:induction false} KeysApart(l: Limit, run: seq<Call>, key: string)
    ensures HitsOf(After(l, run), key) == HitsOf(After(l, Only(run, key)), key)
  {
    if run != [] {
      var rest := Only(DropLast(run), key);
      KeysApart(l, DropLast(run), key);
      if Last(run).key == key {
        assert DropLast(rest + [Last(run)]) == rest;
      } else {
        assert Only(run, key) == rest;
      }
    }
  }

  /** Keys do not affect each other: striking every other key's calls changes no answer. */
  lemma KeysIndependent(l: Limit, run: seq<Call>)
    requires run != [] && Last(run).Allow?
    ensures var own := Only(run, Last(run).key);
            own != [] && Last(own) == Last(run) && Allowed(l, own) == Allowed(l, run)
  {
    var key := Last(run).key;
    KeysApart(l, DropLast(run), key);
    assert DropLast(Only(run, key)) == Only(DropLast(run), key);
  }
}
