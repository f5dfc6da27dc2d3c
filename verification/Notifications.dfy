/** Admission of notifications: a per-key throttle with a table that forgets old keys, a cap per
    minute, and a count of what the cap dropped. */
module Notifications {
  import opened Common
  import opened Text
  import opened SlidingWindow

  const TABLE_LIMIT: nat := 1000
  const FORGET_AFTER: real := 3600.0
  const MINUTE: real := 60.0

  type Key = (string, string)

  datatype State = State(throttle: map<Key, real>, sent: seq<real>, suppressed: nat)

  const EMPTY: State := State(map[], [], 0)

  datatype Call = Call(event: string, dedupe: Option<string>, seconds: real, now: real)

  /** `Sent` says how many were dropped since the last one that got through. */
  datatype Outcome = Throttled | Capped | Sent(dropped: nat)

  /** What `_admit` returns. */
  function Returned(o: Outcome): Option<nat> {
    match o
    case Sent(n) => Some(n)
    case _ => None
  }

  predicate Dedupes(c: Call) {
    c.dedupe.Some? && c.seconds > 0.0
  }

  function KeyOf(c: Call): Key
    requires Dedupes(c)
  {
    (c.event, c.dedupe.value)
  }

  predicate TooSoon(throttle: map<Key, real>, c: Call) {
    Dedupes(c) && KeyOf(c) in throttle && c.now - throttle[KeyOf(c)] < c.seconds
  }

  function Forget(throttle: map<Key, real>, now: real): map<Key, real> {
    map k | k in throttle && now - throttle[k] <= FORGET_AFTER :: throttle[k]
  }

  /** The table after a call that was not too soon; a table past its limit forgets first. */
  function Remember(throttle: map<Key, real>, c: Call): map<Key, real> {
    if !Dedupes(c) then throttle
    else (if |throttle| > TABLE_LIMIT then Forget(throttle, c.now) else throttle)[KeyOf(c) := c.now]
  }

  function Step(s: State, cap: int, c: Call): (State, Outcome) {
    if TooSoon(s.throttle, c) then (s, Throttled)
    else
      var table, recent := Remember(s.throttle, c), Prune(s.sent, c.now, MINUTE);
      if |recent| >= cap then (State(table, recent, s.suppressed + 1), Capped)
      else (State(table, recent + [c.now], 0), Sent(s.suppressed))
  }

  class Notifier {
    const cap: int
    var throttle: map<Key, real>
    var sentTimes: seq<real>
    var suppressed: nat

    ghost function Now(): State
      reads this
    {
      State(throttle, sentTimes, suppressed)
    }

    constructor (cap: int)
      ensures this.cap == cap && Now() == EMPTY
    {
      this.cap, throttle, sentTimes, suppressed := cap, map[], [], 0;
    }

    method Admit(c: Call) returns (r: Option<nat>)
      modifies this
      ensures Now() == Step(old(Now()), cap, c).0 && r == Returned(Step(old(Now()), cap, c).1)
    {
      if Dedupes(c) {
        var key := KeyOf(c);
        if key in throttle && c.now - throttle[key] < c.seconds { return None; }
        if |throttle| > TABLE_LIMIT {
          throttle := ForgetLoop(throttle, c.now);
        }
        throttle := throttle[key := c.now];
      }
      sentTimes := PruneLoop(sentTimes, c.now, MINUTE);
      if |sentTimes| >= cap {
        suppressed := suppressed + 1;
        return None;
      }
      sentTimes := sentTimes + [c.now];
      r, suppressed := Some(suppressed), 0;
    }
  }

  method ForgetLoop(throttle: map<Key, real>, now: real) returns (r: map<Key, real>)
    ensures r == Forget(throttle, now)
  {
    r := throttle;
    var stale := set k | k in throttle && now - throttle[k] > FORGET_AFTER;
    while stale != {}
      invariant stale <= r.Keys <= throttle.Keys
      invariant forall k :: k in throttle ==> (k in r <==> k in stale || now - throttle[k] <= FORGET_AFTER)
      invariant forall k :: k in r ==> r[k] == throttle[k]
      decreases stale
    {
      var k :| k in stale;
      r, stale := r - {k}, stale - {k};
    }
  }

  // ---- Runs ------------------------------------------------------------------------------

  ghost predicate Ordered(run: seq<Call>) {
    forall i, j :: 0 <= i < j < |run| ==> run[i].now <= run[j].now
  }

  ghost predicate UpTo(run: seq<Call>, seconds: real) {
    forall i :: 0 <= i < |run| ==> run[i].seconds <= seconds
  }

  ghost function After(cap: int, run: seq<Call>): State {
    if run == [] then EMPTY else Step(After(cap, DropLast(run)), cap, Last(run)).0
  }

  ghost function Outcomes(cap: int, run: seq<Call>): seq<Outcome> {
    if run == [] then [] else
    Outcomes(cap, DropLast(run)) + [Step(After(cap, DropLast(run)), cap, Last(run)).1]
  }

  /** The times at which something was sent. */
  ghost function SentTimes(cap: int, run: seq<Call>): seq<real> {
    if run == [] then [] else
    var before := SentTimes(cap, DropLast(run));
    if Step(After(cap, DropLast(run)), cap, Last(run)).1.Sent? then before + [Last(run).now] else before
  }

  lemma OrderedPrefix(run: seq<Call>)
    requires run != [] && Ordered(run)
    ensures Ordered(DropLast(run))
    ensures forall i :: 0 <= i < |DropLast(run)| ==> DropLast(run)[i].now <= Last(run).now
  {
  }

  ghost predicate SentFits(cap: int, sent: seq<real>, full: seq<real>, now: real) {
    Remembers(sent, full, now, MINUTE) && Spaced(full, Cap(cap), MINUTE)
  }

  lemma SentFitsLater(cap: int, sent: seq<real>, full: seq<real>, clock: real, now: real)
    requires SentFits(cap, sent, full, clock) && clock <= now
    ensures SentFits(cap, sent, full, now)
  {
    LaterClock(sent, full, clock, now, MINUTE);
  }

  lemma SentStep(s: State, cap: int, c: Call, full: seq<real>)
    requires SentFits(cap, s.sent, full, c.now)
    ensures var (t, o) := Step(s, cap, c);
            && SentFits(cap, t.sent, if o.Sent? then full + [c.now] else full, c.now)
            && (!TooSoon(s.throttle, c) ==> (o.Capped? <==> CountIn(full, c.now - MINUTE, c.now) >= cap))
  {
    Admission(s.sent, full, c.now, MINUTE, cap);
  }

  lemma {:induction false} SentFaithful(cap: int, run: seq<Call>, now: real)
    requires Ordered(run) && forall i :: 0 <= i < |run| ==> run[i].now <= now
    ensures SentFits(cap, After(cap, run).sent, SentTimes(cap, run), now)
  {
    if run != [] {
      OrderedPrefix(run);
      SentFaithful(cap, DropLast(run), Last(run).now);
      SentStep(After(cap, DropLast(run)), cap, Last(run), SentTimes(cap, DropLast(run)));
      SentFitsLater(cap, After(cap, run).sent, SentTimes(cap, run), Last(run).now, now);
    }
  }

  /** No closed minute admits more than the cap, whatever the throttle does. */
  lemma MinuteBound(cap: int, run: seq<Call>, from: real)
    requires Ordered(run)
    ensures CountIn(SentTimes(cap, run), from, from + 60.0) <= if cap > 0 then cap else 0
  {
    var now := if run == [] then 0.0 else Last(run).now;
    SentFaithful(cap, run, now);
    SpacedBound(SentTimes(cap, run), Cap(cap), MINUTE, from);
  }

  // ---- Conservation of drops ----------------------------------------------------------------

  ghost function CapDrops(os: seq<Outcome>): nat {
    if os == [] then 0 else CapDrops(DropLast(os)) + if Last(os).Capped? then 1 else 0
  }

  ghost function Mentioned(os: seq<Outcome>): nat {
    if os == [] then 0
    else Mentioned(DropLast(os)) + if Returned(Last(os)).Some? then Returned(Last(os)).value else 0
  }

  /** The caller sends exactly what got through, and is told how many did not since the last that did. */
  lemma ReturnedIs(o: Outcome, n: nat)
    ensures Returned(o) == Some(n) <==> o == Sent(n)
  {
  }

  /** Every drop is mentioned once in a notification that got through, or still held. */
  lemma {:induction false} DropsConserved(cap: int, run: seq<Call>)
    ensures CapDrops(Outcomes(cap, run)) == Mentioned(Outcomes(cap, run)) + After(cap, run).suppressed
  {
    if run != [] {
      var os := Outcomes(cap, DropLast(run));
      DropsConserved(cap, DropLast(run));
      assert DropLast(Outcomes(cap, run)) == os;
    }
  }

  // ---- Against a table that never forgets ------------------------------------------------------

  /** Full knowledge: every key ever throttled, every time something was sent. */
  ghost function FullStep(s: State, cap: int, c: Call): (State, Outcome) {
    if TooSoon(s.throttle, c) then (s, Throttled)
    else
      var table := if Dedupes(c) then s.throttle[KeyOf(c) := c.now] else s.throttle;
      if CountIn(s.sent, c.now - MINUTE, c.now) >= cap then (State(table, s.sent, s.suppressed + 1), Capped)
      else (State(table, s.sent + [c.now], 0), Sent(s.suppressed))
  }

  ghost function FullAfter(cap: int, run: seq<Call>): State {
    if run == [] then EMPTY else FullStep(FullAfter(cap, DropLast(run)), cap, Last(run)).0
  }

  ghost function FullOutcomes(cap: int, run: seq<Call>): seq<Outcome> {
    if run == [] then [] else
    FullOutcomes(cap, DropLast(run)) + [FullStep(FullAfter(cap, DropLast(run)), cap, Last(run)).1]
  }

  // ---- One key, whatever the others do ----------------------------------------------------------

  predicate OfKey(c: Call, k: Key) {
    Dedupes(c) && KeyOf(c) == k
  }

  /** Every call of this one key is throttled by at most so many seconds. */
  ghost predicate KeyUpTo(run: seq<Call>, k: Key, seconds: real) {
    forall i :: 0 <= i < |run| && OfKey(run[i], k) ==> run[i].seconds <= seconds
  }

  /** The pruned table knows of a key what the full one knows, unless that is older than an hour. */
  ghost predicate KnowsKey(table: map<Key, real>, full: map<Key, real>, k: Key, now: real) {
    && (k in table ==> k in full && full[k] == table[k])
    && (k in full && k !in table ==> now - full[k] > FORGET_AFTER)
  }

  lemma KeyStep(s: State, f: State, cap: int, c: Call, k: Key)
    requires KnowsKey(s.throttle, f.throttle, k, c.now) && (OfKey(c, k) ==> c.seconds <= FORGET_AFTER)
    ensures OfKey(c, k) ==> (Step(s, cap, c).1.Throttled? <==> FullStep(f, cap, c).1.Throttled?)
    ensures KnowsKey(Step(s, cap, c).0.throttle, FullStep(f, cap, c).0.throttle, k, c.now)
  {
  }

  lemma {:induction false} KeyKnown(cap: int, run: seq<Call>, k: Key, now: real)
    requires Ordered(run) && KeyUpTo(run, k, FORGET_AFTER)
    requires forall i :: 0 <= i < |run| ==> run[i].now <= now
    ensures KnowsKey(After(cap, run).throttle, FullAfter(cap, run).throttle, k, now)
  {
    if run != [] {
      OrderedPrefix(run);
      assert forall i :: 0 <= i < |DropLast(run)| ==> DropLast(run)[i] == run[i];
      KeyKnown(cap, DropLast(run), k, Last(run).now);
      KeyStep(After(cap, DropLast(run)), FullAfter(cap, DropLast(run)), cap, Last(run), k);
    }
  }

  /** The last call of the run is throttled by both tables or by neither. */
  ghost predicate SameThrottle(cap: int, run: seq<Call>)
    requires run != []
  {
    Step(After(cap, DropLast(run)), cap, Last(run)).1.Throttled?
    <==> FullStep(FullAfter(cap, DropLast(run)), cap, Last(run)).1.Throttled?
  }

  /** A key that is never throttled by more than an hour is throttled as if nothing were ever
      forgotten, in every run and whatever the calls of other keys are. */
  lemma ThrottleExactPerKey(cap: int, run: seq<Call>)
    requires Ordered(run) && run != [] && Dedupes(Last(run)) && KeyUpTo(run, KeyOf(Last(run)), FORGET_AFTER)
    ensures SameThrottle(cap, run)
  {
    var k := KeyOf(Last(run));
    OrderedPrefix(run);
    assert forall i :: 0 <= i < |DropLast(run)| ==> DropLast(run)[i] == run[i];
    KeyKnown(cap, DropLast(run), k, Last(run).now);
    KeyStep(After(cap, DropLast(run)), FullAfter(cap, DropLast(run)), cap, Last(run), k);
  }

  // ---- The decision, told from the earlier calls -------------------------------------------------

  /** An earlier call with the same event and text, which was to be throttled too, and got through. */
  ghost predicate PassedAt(cap: int, run: seq<Call>, c: Call, i: int) {
    0 <= i < |run| && Passes(After(cap, run[..i]), cap, run[i], c)
  }

  ghost predicate Passes(s: State, cap: int, d: Call, c: Call) {
    && d.event == c.event && c.dedupe.Some? && d.dedupe == c.dedupe && d.seconds > 0.0
    && !Step(s, cap, d).1.Throttled?
  }

  /** The table remembers when the key last got through, or that was more than an hour ago. */
  ghost predicate Recalls(cap: int, run: seq<Call>, c: Call, now: real)
    requires c.dedupe.Some?
  {
    var table, k := After(cap, run).throttle, (c.event, c.dedupe.value);
    && (k in table ==> exists i :: PassedAt(cap, run, c, i) && run[i].now == table[k])
    && (forall i :: PassedAt(cap, run, c, i) ==>
          if k in table then run[i].now <= table[k] else now - run[i].now > 3600.0)
  }

  lemma PassedBefore(cap: int, run: seq<Call>, c: Call, i: int)
    requires run != [] && 0 <= i < |run| - 1
    ensures DropLast(run)[i] == run[i] && (PassedAt(cap, run, c, i) <==> PassedAt(cap, DropLast(run), c, i))
  {
    assert run[..i] == DropLast(run)[..i];
  }

  lemma PassedLast(cap: int, run: seq<Call>, c: Call)
    requires run != []
    ensures PassedAt(cap, run, c, |run| - 1) <==> Passes(After(cap, DropLast(run)), cap, Last(run), c)
  {
    assert run[..|run| - 1] == DropLast(run);
  }

  /** One entry over one call. */
  lemma StepEntry(s: State, cap: int, d: Call, c: Call)
    requires c.dedupe.Some?
    ensures var t, k := Step(s, cap, d).0.throttle, (c.event, c.dedupe.value);
            if Passes(s, cap, d, c) then k in t && t[k] == d.now
            else
              && (k in t ==> k in s.throttle && t[k] == s.throttle[k])
              && (k in s.throttle && k !in t ==> d.now - s.throttle[k] > 3600.0)
  {
  }

  lemma {:induction false} TableRecalls(cap: int, run: seq<Call>, c: Call, now: real)
    requires Ordered(run) && c.dedupe.Some? && forall i :: 0 <= i < |run| ==> run[i].now <= now
    ensures Recalls(cap, run, c, now)
  {
    if run != [] {
      var init, d := DropLast(run), Last(run);
      OrderedPrefix(run);
      TableRecalls(cap, init, c, d.now);
      RecallsMore(cap, run, c, now);
    }
  }

  lemma RecallsMore(cap: int, run: seq<Call>, c: Call, now: real)
    requires run != [] && c.dedupe.Some? && Recalls(cap, DropLast(run), c, Last(run).now)
    requires Last(run).now <= now && forall i :: 0 <= i < |run| ==> run[i].now <= Last(run).now
    ensures Recalls(cap, run, c, now)
  {
    var init, d, k := DropLast(run), Last(run), (c.event, c.dedupe.value);
    var table, before := After(cap, run).throttle, After(cap, init).throttle;
    StepEntry(After(cap, init), cap, d, c);
    PassedLast(cap, run, c);
    if k in table {
      if Passes(After(cap, init), cap, d, c) {
        assert PassedAt(cap, run, c, |run| - 1);
      } else {
        var i :| PassedAt(cap, init, c, i) && init[i].now == before[k];
        PassedBefore(cap, run, c, i);
      }
    }
    forall i | PassedAt(cap, run, c, i)
      ensures if k in table then run[i].now <= table[k] else now - run[i].now > 3600.0
    {
      if i < |run| - 1 { PassedBefore(cap, run, c, i); }
    }
  }

  /** Main result, told from the calls alone. A call is throttled if and only if it is one to be throttled
      and an earlier call of its key got through less than its seconds ago, supposing these are no more
      than an hour; and a call that is not is dropped if and only if the last minute is full. */
  lemma AdmittedIff(cap: int, run: seq<Call>)
    requires Ordered(run) && run != [] && Last(run).seconds <= 3600.0
    ensures var c, init := Last(run), DropLast(run);
            var outcome := Step(After(cap, init), cap, c).1;
            && (outcome.Throttled? <==>
                  c.seconds > 0.0 && exists i :: PassedAt(cap, init, c, i) && c.now - init[i].now < c.seconds)
            && (!outcome.Throttled? ==>
                  (outcome.Capped? <==> CountIn(SentTimes(cap, init), c.now - 60.0, c.now) >= cap))
  {
    var c, init := Last(run), DropLast(run);
    OrderedPrefix(run);
    if c.dedupe.Some? { TableRecalls(cap, init, c, c.now); }
    ThrottledOrFull(cap, init, c);
  }

  lemma ThrottledOrFull(cap: int, init: seq<Call>, c: Call)
    requires Ordered(init) && forall i :: 0 <= i < |init| ==> init[i].now <= c.now
    ensures Step(After(cap, init), cap, c).1.Throttled? <==> TooSoon(After(cap, init).throttle, c)
    ensures var outcome := Step(After(cap, init), cap, c).1;
            !outcome.Throttled? ==> (outcome.Capped? <==> CountIn(SentTimes(cap, init), c.now - 60.0, c.now) >= cap)
  {
    SentFaithful(cap, init, c.now);
    SentStep(After(cap, init), cap, c, SentTimes(cap, init));
  }

  // ---- Whole outcomes, when every key keeps to the hour ------------------------------------------

  /** The pruned table knows what the full one knows, up to keys older than an hour. */
  ghost predicate TableAgrees(table: map<Key, real>, full: map<Key, real>, now: real) {
    && (forall k :: k in table ==> k in full && full[k] == table[k])
    && (forall k :: k in full && k !in table ==> now - full[k] > FORGET_AFTER)
  }

  lemma TableStep(table: map<Key, real>, full: map<Key, real>, c: Call)
    requires TableAgrees(table, full, c.now) && c.seconds <= FORGET_AFTER
    ensures TooSoon(table, c) <==> TooSoon(full, c)
    ensures TableAgrees(Remember(table, c), if Dedupes(c) then full[KeyOf(c) := c.now] else full, c.now)
  {
  }

  /** What the cap sees of the past is the same. */
  ghost predicate CapAgrees(sent: seq<real>, full: seq<real>, now: real) {
    |Prune(sent, now, MINUTE)| == CountIn(full, now - MINUTE, now)
  }

  lemma SentAgrees(cap: int, sent: seq<real>, full: seq<real>, now: real)
    requires SentFits(cap, sent, full, now)
    ensures var recent := Prune(sent, now, MINUTE);
            && CapAgrees(sent, full, now) && SentFits(cap, sent, full, now)
            && if |recent| >= cap then SentFits(cap, recent, full, now)
               else SentFits(cap, recent + [now], full + [now], now)
  {
    Admission(sent, full, now, MINUTE, cap);
  }

  ghost predicate Agrees(cap: int, s: State, f: State, now: real) {
    TableAgrees(s.throttle, f.throttle, now) && SentFits(cap, s.sent, f.sent, now) && s.suppressed == f.suppressed
  }

  lemma AgreeingStep(cap: int, s: State, f: State, c: Call)
    requires Agrees(cap, s, f, c.now) && c.seconds <= FORGET_AFTER
    ensures Step(s, cap, c).1 == FullStep(f, cap, c).1
    ensures Agrees(cap, Step(s, cap, c).0, FullStep(f, cap, c).0, c.now)
  {
    SentAgrees(cap, s.sent, f.sent, c.now);
    TableStep(s.throttle, f.throttle, c);
  }

  /** If every call is throttled by at most an hour, cap and counts agree as well. */
  lemma {:induction false} RunsAgree(cap: int, run: seq<Call>, now: real)
    requires Ordered(run) && UpTo(run, FORGET_AFTER)
    requires forall i :: 0 <= i < |run| ==> run[i].now <= now
    ensures Outcomes(cap, run) == FullOutcomes(cap, run)
    ensures Agrees(cap, After(cap, run), FullAfter(cap, run), now)
  {
    if run != [] {
      OrderedPrefix(run);
      assert forall i :: 0 <= i < |DropLast(run)| ==> DropLast(run)[i] == run[i];
      var c := Last(run);
      RunsAgree(cap, DropLast(run), c.now);
      AgreeingStep(cap, After(cap, DropLast(run)), FullAfter(cap, DropLast(run)), c);
      SentFitsLater(cap, After(cap, run).sent, FullAfter(cap, run).sent, c.now, now);
    }
  }

  // ---- While there are few keys, nothing is forgotten ----------------------------------------------

  ghost function KeysOf(run: seq<Call>): set<Key> {
    set c | c in run && Dedupes(c) :: KeyOf(c)
  }

  ghost predicate AgreesFully(cap: int, s: State, f: State, now: real) {
    s.throttle == f.throttle && SentFits(cap, s.sent, f.sent, now) && s.suppressed == f.suppressed
  }

  lemma FewKeysStep(cap: int, s: State, f: State, c: Call)
    requires AgreesFully(cap, s, f, c.now) && |s.throttle| <= 1000
    ensures Step(s, cap, c).1 == FullStep(f, cap, c).1
    ensures AgreesFully(cap, Step(s, cap, c).0, FullStep(f, cap, c).0, c.now)
    ensures Step(s, cap, c).0.throttle.Keys <= s.throttle.Keys + if Dedupes(c) then {KeyOf(c)} else {}
  {
    SentAgrees(cap, s.sent, f.sent, c.now);
  }

  lemma KeysLast(run: seq<Call>)
    requires run != []
    ensures KeysOf(run) == KeysOf(DropLast(run)) + if Dedupes(Last(run)) then {KeyOf(Last(run))} else {}
  {
    assert run == DropLast(run) + [Last(run)];
  }

  lemma SubsetSize<T>(a: set<T>, b: set<T>)
    requires a <= b
    ensures |a| <= |b|
  {
    if a != b { assert b == a + (b - a); }
  }

  /** In a run with at most 1000 keys, the table never forgets any, and every decision is as if it could not,
      whatever the throttles are. */
  lemma {:induction false} FewKeysExact(cap: int, run: seq<Call>, now: real)
    requires Ordered(run) && |KeysOf(run)| <= 1000 && forall i :: 0 <= i < |run| ==> run[i].now <= now
    ensures Outcomes(cap, run) == FullOutcomes(cap, run)
    ensures AgreesFully(cap, After(cap, run), FullAfter(cap, run), now)
    ensures After(cap, run).throttle.Keys <= KeysOf(run)
  {
    if run != [] {
      var init, c := DropLast(run), Last(run);
      OrderedPrefix(run);
      assert forall i :: 0 <= i < |init| ==> init[i] == run[i];
      KeysLast(run);
      SubsetSize(KeysOf(init), KeysOf(run));
      FewKeysExact(cap, init, c.now);
      SubsetSize(After(cap, init).throttle.Keys, KeysOf(init));
      FewKeysStep(cap, After(cap, init), FullAfter(cap, init), c);
      SentFitsLater(cap, After(cap, run).sent, FullAfter(cap, run).sent, c.now, now);
    }
  }

  // ---- Beyond an hour the table forgets too much -------------------------------------------------

  ghost function Opening(seconds: real, n: nat): seq<Call> {
    seq(n, i requires 0 <= i < n => Call("e", Some(Decimal(i)), seconds, 0.0))
  }

  function OpeningKey(i: nat): Key {
    ("e", Decimal(i))
  }

  /** Both tables after the opening. */
  ghost function OpeningTable(n: nat): map<Key, real> {
    if n == 0 then map[] else OpeningTable(n - 1)[OpeningKey(n - 1) := 0.0]
  }

  lemma {:induction false} OpeningTableFacts(n: nat, m: nat)
    ensures var t := OpeningTable(n);
            && |t| == n && (forall k :: k in t ==> t[k] == 0.0)
            && (m < n ==> OpeningKey(m) in t) && (m >= n ==> OpeningKey(m) !in t)
  {
    if n > 0 {
      OpeningTableFacts(n - 1, m);
      OpeningTableFacts(n - 1, n - 1);
      if Decimal(m) == Decimal(n - 1) { DecimalInjective(m, n - 1); }
    }
  }

  lemma OpeningStep(s: State, cap: int, seconds: real, n: nat)
    requires seconds > 0.0 && s.throttle == OpeningTable(n)
    ensures var c := Call("e", Some(Decimal(n)), seconds, 0.0);
            && Step(s, cap, c).0.throttle == OpeningTable(n + 1)
            && FullStep(s, cap, c).0.throttle == OpeningTable(n + 1)
  {
    OpeningTableFacts(n, n);
    assert Forget(s.throttle, 0.0) == s.throttle;
  }

  lemma {:induction false} OpeningTables(cap: int, seconds: real, n: nat)
    requires seconds > 0.0
    ensures After(cap, Opening(seconds, n)).throttle == OpeningTable(n)
    ensures FullAfter(cap, Opening(seconds, n)).throttle == OpeningTable(n)
  {
    if n > 0 {
      OpeningTables(cap, seconds, n - 1);
      var run := Opening(seconds, n);
      assert DropLast(run) == Opening(seconds, n - 1);
      OpeningStep(After(cap, DropLast(run)), cap, seconds, n - 1);
      OpeningStep(FullAfter(cap, DropLast(run)), cap, seconds, n - 1);
    }
  }

  /** The late call: the pruned table keeps nothing but it. */
  lemma LateStep(s: State, cap: int, c: Call, n: nat)
    requires n > TABLE_LIMIT && s.throttle == OpeningTable(n)
    requires Dedupes(c) && KeyOf(c) == OpeningKey(n) && c.now > FORGET_AFTER
    ensures Step(s, cap, c).0.throttle == map[KeyOf(c) := c.now]
  {
    OpeningTableFacts(n, n);
    assert Forget(s.throttle, c.now) == map[];
  }

  lemma LateFullStep(f: State, cap: int, c: Call, n: nat)
    requires n > 0 && f.throttle == OpeningTable(n) && Dedupes(c) && KeyOf(c) == OpeningKey(n)
    ensures var g := FullStep(f, cap, c).0.throttle; OpeningKey(0) in g && g[OpeningKey(0)] == 0.0
  {
    OpeningTableFacts(n, 0);
    OpeningTableFacts(n, n);
  }

  lemma OneMore(cap: int, run: seq<Call>, c: Call)
    ensures DropLast(run + [c]) == run && Last(run + [c]) == c
    ensures After(cap, run + [c]) == Step(After(cap, run), cap, c).0
    ensures FullAfter(cap, run + [c]) == FullStep(FullAfter(cap, run), cap, c).0
  {
    assert DropLast(run + [c]) == run && Last(run + [c]) == c;
  }

  lemma AfterLateCall(cap: int, opening: seq<Call>, c: Call, seconds: real, n: nat)
    requires n > TABLE_LIMIT && seconds > 0.0 && opening == Opening(seconds, n)
    requires Dedupes(c) && KeyOf(c) == OpeningKey(n) && c.now > FORGET_AFTER
    ensures var t, g := After(cap, opening + [c]), FullAfter(cap, opening + [c]);
            && t.throttle == map[OpeningKey(n) := c.now]
            && OpeningKey(0) in g.throttle && g.throttle[OpeningKey(0)] == 0.0
  {
    OneMore(cap, opening, c);
    OpeningTables(cap, seconds, n);
    LateStep(After(cap, opening), cap, c, n);
    LateFullStep(FullAfter(cap, opening), cap, c, n);
  }

  /** A key throttled for more than an hour can get through early: 1000 other keys, then one
      call after an hour that makes the table forget, then the key again. */
  lemma ForgetsTooEarly(cap: int, seconds: real) returns (run: seq<Call>)
    requires seconds > FORGET_AFTER
    ensures Ordered(run) && UpTo(run, seconds)
    ensures run != [] && !Step(After(cap, DropLast(run)), cap, Last(run)).1.Throttled?
    ensures FullStep(FullAfter(cap, DropLast(run)), cap, Last(run)).1.Throttled?
  {
    var n, late := TABLE_LIMIT + 1, (FORGET_AFTER + seconds) / 2.0;
    var opening := Opening(seconds, n);
    var other, again := Call("e", Some(Decimal(n)), seconds, late), Call("e", Some(Decimal(0)), seconds, late);
    var middle := opening + [other];
    run := middle + [again];
    AfterLateCall(cap, opening, other, seconds, n);
    OneMore(cap, middle, again);
  }

  /** Main result. A key whose calls are throttled by at most so many seconds is throttled exactly
      as by a table that never forgets, in all runs and with any other keys in them, if and only if
      that is at most an hour. */
  lemma PrunedTableExact(cap: int, seconds: real)
    ensures (forall run ::
               Ordered(run) && run != [] && Dedupes(Last(run)) && KeyUpTo(run, KeyOf(Last(run)), seconds)
               ==> SameThrottle(cap, run))
            <==> seconds <= 3600.0
  {
    if seconds <= FORGET_AFTER {
      forall run | Ordered(run) && run != [] && Dedupes(Last(run)) && KeyUpTo(run, KeyOf(Last(run)), seconds)
        ensures SameThrottle(cap, run)
      {
        ThrottleExactPerKey(cap, run);
      }
    } else {
      var run := ForgetsTooEarly(cap, seconds);
      assert !SameThrottle(cap, run);
    }
  }

  /** The whole outcomes agree on all runs throttled by at most so many seconds, if and only if
      that is at most an hour. */
  lemma OutcomesExact(cap: int, seconds: real)
    ensures (forall run :: Ordered(run) && UpTo(run, seconds) ==> Outcomes(cap, run) == FullOutcomes(cap, run))
            <==> seconds <= 3600.0
  {
    if seconds <= FORGET_AFTER {
      forall run | Ordered(run) && UpTo(run, seconds) ensures Outcomes(cap, run) == FullOutcomes(cap, run) {
        RunsAgree(cap, run, if run == [] then 0.0 else Last(run).now);
      }
    } else {
      var run := ForgetsTooEarly(cap, seconds);
      assert Last(Outcomes(cap, run)) != Last(FullOutcomes(cap, run));
    }
  }

  // ---- What a longer throttle still does to the others -------------------------------------------

  ghost predicate NoLater(sent: seq<real>, t: real) {
    forall i :: 0 <= i < |sent| ==> sent[i] <= t
  }

  lemma StepNoLater(s: State, cap: int, c: Call, t: real)
    requires NoLater(s.sent, t) && c.now <= t
    ensures NoLater(Step(s, cap, c).0.sent, t) && NoLater(FullStep(s, cap, c).0.sent, t)
  {
    PruneSuffix(s.sent, c.now);
  }

  lemma {:induction false} SentEarlier(cap: int, run: seq<Call>, t: real)
    requires forall i :: 0 <= i < |run| ==> run[i].now <= t
    ensures NoLater(After(cap, run).sent, t) && NoLater(FullAfter(cap, run).sent, t)
  {
    if run != [] {
      assert forall i :: 0 <= i < |DropLast(run)| ==> DropLast(run)[i] == run[i];
      SentEarlier(cap, DropLast(run), t);
      StepNoLater(After(cap, DropLast(run)), cap, Last(run), t);
      StepNoLater(FullAfter(cap, DropLast(run)), cap, Last(run), t);
    }
  }

  lemma {:induction false} PruneSuffix(s: seq<real>, now: real)
    ensures |Prune(s, now, MINUTE)| <= |s| && Prune(s, now, MINUTE) == s[|s| - |Prune(s, now, MINUTE)|..]
    decreases |s|
  {
    if s != [] && now - s[0] > MINUTE { PruneSuffix(s[1..], now); }
  }

  lemma {:induction false} AllPruned(s: seq<real>, now: real)
    requires forall i :: 0 <= i < |s| ==> now - s[i] > MINUTE
    ensures Prune(s, now, MINUTE) == []
    decreases |s|
  {
    if s != [] { AllPruned(s[1..], now); }
  }

  /** The late call of another key is the first message of its minute in both. */
  lemma LateCallSent(s: State, f: State, c: Call)
    requires forall i :: 0 <= i < |s.sent| ==> s.sent[i] <= 0.0
    requires forall i :: 0 <= i < |f.sent| ==> f.sent[i] <= 0.0
    requires c.now > FORGET_AFTER && !TooSoon(s.throttle, c) && !TooSoon(f.throttle, c)
    ensures Step(s, 2, c).0.sent == [c.now]
    ensures CountIn(FullStep(f, 2, c).0.sent, c.now - MINUTE, c.now) == 1
  {
    AllPruned(s.sent, c.now);
    CountNone(f.sent, c.now - MINUTE, c.now);
    assert DropLast(f.sent + [c.now]) == f.sent;
  }

  /** With a second message in the same minute, the third meets the cap. */
  lemma ThirdMessage(s: State, f: State, again: Call, plain: Call)
    requires s.sent == [again.now] && CountIn(f.sent, again.now - MINUTE, again.now) == 1
    requires plain.now == again.now && !Dedupes(plain)
    requires !TooSoon(s.throttle, again) && TooSoon(f.throttle, again)
    ensures Step(Step(s, 2, again).0, 2, plain).1.Capped?
    ensures FullStep(FullStep(f, 2, again).0, 2, plain).1.Sent?
  {
  }

  /** Both states after the opening and the late call. */
  lemma MiddleSent(opening: seq<Call>, other: Call, seconds: real, n: nat)
    requires seconds > 0.0 && opening == Opening(seconds, n)
    requires Dedupes(other) && KeyOf(other) == OpeningKey(n) && other.now > FORGET_AFTER
    ensures After(2, opening + [other]).sent == [other.now]
    ensures CountIn(FullAfter(2, opening + [other]).sent, other.now - MINUTE, other.now) == 1
  {
    SentEarlier(2, opening, 0.0);
    OpeningTables(2, seconds, n);
    OpeningTableFacts(n, n);
    LateCallSent(After(2, opening), FullAfter(2, opening), other);
    OneMore(2, opening, other);
  }

  lemma TwoMore(cap: int, run: seq<Call>, c: Call, d: Call)
    ensures DropLast(run + [c] + [d]) == run + [c] && Last(run + [c] + [d]) == d
    ensures After(cap, run + [c]) == Step(After(cap, run), cap, c).0
    ensures FullAfter(cap, run + [c]) == FullStep(FullAfter(cap, run), cap, c).0
  {
    OneMore(cap, run, c);
    OneMore(cap, run + [c], d);
  }

  lemma OrderedMixed(n: nat, seconds: real, late: real, other: Call, again: Call, plain: Call)
    requires late >= 0.0 && other.now == again.now == plain.now == late
    ensures Ordered(Opening(seconds, n) + [other] + [again] + [plain])
  {
  }

  /** In a run with a longer throttle the cap can decide differently for any call: a message of the
      longer key that gets through early uses up the cap, and a call that is not throttled at all is
      dropped for it. */
  lemma MixedRunsDiffer(seconds: real) returns (run: seq<Call>)
    requires seconds > FORGET_AFTER
    ensures Ordered(run) && run != [] && !Dedupes(Last(run))
    ensures Step(After(2, DropLast(run)), 2, Last(run)).1.Capped?
    ensures FullStep(FullAfter(2, DropLast(run)), 2, Last(run)).1.Sent?
  {
    var n, late := TABLE_LIMIT + 1, (FORGET_AFTER + seconds) / 2.0;
    var opening := Opening(seconds, n);
    var other, again := Call("e", Some(Decimal(n)), seconds, late), Call("e", Some(Decimal(0)), seconds, late);
    var plain := Call("e", None, 0.0, late);
    var middle := opening + [other];
    AfterLateCall(2, opening, other, seconds, n);
    MiddleSent(opening, other, seconds, n);
    AgainEarly(After(2, middle), FullAfter(2, middle), n, again);
    ThirdMessage(After(2, middle), FullAfter(2, middle), again, plain);
    TwoMore(2, middle, again, plain);
    OrderedMixed(n, seconds, late, other, again, plain);
    run := middle + [again] + [plain];
  }

  /** The first key again: forgotten by the one table, too soon for the other. */
  lemma AgainEarly(s: State, f: State, n: nat, again: Call)
    requires n > 0 && s.throttle.Keys == {OpeningKey(n)}
    requires OpeningKey(0) in f.throttle && f.throttle[OpeningKey(0)] == 0.0
    requires Dedupes(again) && KeyOf(again) == OpeningKey(0) && again.now < again.seconds
    ensures !TooSoon(s.throttle, again) && TooSoon(f.throttle, again)
  {
    if Decimal(0) == Decimal(n) { DecimalInjective(0, n); }
  }
}
