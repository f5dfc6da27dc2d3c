/** Look-ups of registry details for an address: an ordered cache with two life times and a
    size limit, in front of a rate-limited fetch. A look-up is two critical sections around an
    unlocked fetch, so any number of them can be under way at once. */
module IpInfo {
  import opened Common
  import opened SlidingWindow
  import RateLimit

  const OUTBOUND: string := "outbound"
  const MINUTE: real := 60.0

  /** A parsed address: its text and what the standard library says about it. */
  datatype Addr = Addr(text: string, isGlobal: bool, isMulticast: bool)

  predicate IsPublic(a: Addr) {
    a.isGlobal && !a.isMulticast
  }

  datatype Info = Info(network: string, organization: string, country: string, cidr: string, registry: string)

  datatype Slot = Slot(ip: string, expires: real, info: Option<Info>)

  datatype Config = Config(enabled: bool, maxPerMinute: int, ttl: real, failureTtl: real, maxEntries: nat)

  /** What the first half of a look-up comes to. `Fetching` means the second half will follow. */
  datatype Begun = Local | Disabled | Cached(info: Option<Info>) | Unavailable | Fetching

  // ---- The cache: the entries in order of last use ----------------------------------------

  function Find(cache: seq<Slot>, ip: string): (i: nat)
    ensures i <= |cache| && (i < |cache| ==> cache[i].ip == ip)
    ensures forall j :: 0 <= j < i ==> cache[j].ip != ip
  {
    if cache == [] || cache[0].ip == ip then 0 else
    var r := Find(cache[1..], ip);
    assert forall j :: 1 <= j < |cache| ==> cache[j] == cache[1..][j - 1];
    1 + r
  }

  function Without(cache: seq<Slot>, i: nat): seq<Slot> {
    if i < |cache| then cache[..i] + cache[i + 1..] else cache
  }

  /** `move_to_end`. */
  function MoveToEnd(cache: seq<Slot>, i: nat): seq<Slot>
    requires i < |cache|
  {
    Without(cache, i) + [cache[i]]
  }

  predicate Fresh(cache: seq<Slot>, ip: string, now: real) {
    var i := Find(cache, ip);
    i < |cache| && cache[i].expires > now
  }

  function Put(cache: seq<Slot>, slot: Slot): seq<Slot> {
    Without(cache, Find(cache, slot.ip)) + [slot]
  }

  /** `while len(cache) > max: popitem(last=False)`. */
  function Evict(cache: seq<Slot>, max: nat): seq<Slot> {
    if |cache| <= max then cache else cache[|cache| - max..]
  }

  function Expiry(c: Config, startedAt: real, info: Option<Info>): real {
    startedAt + if info.Some? then c.ttl else c.failureTtl
  }

  function Begin(
      c: Config, cache: seq<Slot>, hits: RateLimit.Hits, a: Addr, now: real, later: real)
    : (seq<Slot>, RateLimit.Hits, Begun)
  {
    if !IsPublic(a) then (cache, hits, Local)
    else if !c.enabled then (cache, hits, Disabled)
    else if Fresh(cache, a.text, now) then
      var i := Find(cache, a.text);
      (MoveToEnd(cache, i), hits, Cached(cache[i].info))
    else
      var (after, ok) := RateLimit.AllowStep(hits, c.maxPerMinute, MINUTE, OUTBOUND, later);
      (cache, after, if ok then Fetching else Unavailable)
  }

  function Store(c: Config, cache: seq<Slot>, ip: string, startedAt: real, info: Option<Info>): seq<Slot> {
    Evict(Put(cache, Slot(ip, Expiry(c, startedAt, info), info)), c.maxEntries)
  }

  class IpInfoService {
    const config: Config
    var cache: seq<Slot>
    const limiter: RateLimit.RateLimiter

    constructor (config: Config)
      ensures this.config == config && cache == [] && fresh(limiter)
      ensures limiter.maxAttempts == config.maxPerMinute && limiter.window == MINUTE && limiter.hits == map[]
    {
      this.config, cache := config, [];
      limiter := new RateLimit.RateLimiter(config.maxPerMinute, MINUTE);
    }

    /** The look-up up to the fetch; the limiter reads its own clock, later. */
    method BeginLookup(a: Addr, now: real, later: real) returns (begun: Begun)
      requires limiter.maxAttempts == config.maxPerMinute && limiter.window == MINUTE
      modifies this`cache, limiter
      ensures (cache, limiter.hits, begun) == Begin(config, old(cache), old(limiter.hits), a, now, later)
    {
      if !IsPublic(a) { return Local; }
      if !config.enabled { return Disabled; }
      var i := Find(cache, a.text);
      if i < |cache| && cache[i].expires > now {
        begun := Cached(cache[i].info);
        cache := MoveToEnd(cache, i);
        return;
      }
      var ok := limiter.Allow(OUTBOUND, later);
      begun := if ok then Fetching else Unavailable;
    }

    /** The rest of a look-up, once the fetch has answered or failed. */
    method FinishLookup(ip: string, startedAt: real, info: Option<Info>)
      modifies this`cache
      ensures cache == Store(config, old(cache), ip, startedAt, info) && |cache| <= config.maxEntries
    {
      var slot := Slot(ip, Expiry(config, startedAt, info), info);
      cache := EvictLoop(Put(cache, slot), config.maxEntries);
    }
  }

  method EvictLoop(cache: seq<Slot>, max: nat) returns (r: seq<Slot>)
    ensures r == Evict(cache, max) && |r| <= max
  {
    r := cache;
    while |r| > max
      invariant Evict(r, max) == Evict(cache, max)
      decreases |r|
    {
      r := r[1..];
    }
  }

  // ---- Interleaved look-ups -----------------------------------------------------------------

  /** A look-up whose fetch is under way. */
  datatype Flight = Flight(addr: Addr, startedAt: real)

  datatype Fetch = Fetch(addr: Addr, startedAt: real, info: Option<Info>)

  /** The service, the fetches under way, and what an observer saw: the fetches that came back,
      the calls of the limiter, and when each address was last used. */
  datatype World = World(
    cache: seq<Slot>,
    hits: RateLimit.Hits,
    flying: seq<Flight>,
    fetched: seq<Fetch>,
    calls: seq<RateLimit.Call>,
    tick: nat,
    lastUse: map<string, nat>)

  const START: World := World([], map[], [], [], [], 0, map[])

  /** `Ask` runs the first half of a look-up; `Land` the second half of one under way. */
  datatype Event = Ask(addr: Addr, now: real, later: real) | Land(i: nat, info: Option<Info>)

  ghost function BeginOf(c: Config, w: World, e: Event): (seq<Slot>, RateLimit.Hits, Begun)
    requires e.Ask?
  {
    Begin(c, w.cache, w.hits, e.addr, e.now, e.later)
  }

  ghost function Step(c: Config, w: World, e: Event): World {
    match e
    case Ask(a, now, later) =>
      var (cache, hits, begun) := BeginOf(c, w, e);
      w.(cache := cache, hits := hits,
         flying := if begun.Fetching? then w.flying + [Flight(a, now)] else w.flying,
         calls := if begun.Fetching? || begun.Unavailable? then w.calls + [RateLimit.Allow(OUTBOUND, later)]
                  else w.calls,
         tick := w.tick + 1,
         lastUse := if begun.Cached? then w.lastUse[a.text := w.tick] else w.lastUse)
    case Land(i, info) =>
      if i >= |w.flying| then w else
      var f := w.flying[i];
      w.(cache := Store(c, w.cache, f.addr.text, f.startedAt, info),
         flying := w.flying[..i] + w.flying[i + 1..],
         fetched := w.fetched + [Fetch(f.addr, f.startedAt, info)],
         tick := w.tick + 1,
         lastUse := w.lastUse[f.addr.text := w.tick])
  }

  ghost function After(c: Config, run: seq<Event>): World {
    if run == [] then START else Step(c, After(c, DropLast(run)), Last(run))
  }

  // ---- Order of use ----------------------------------------------------------------------------

  /** Each address once, in the order in which they were last used. */
  ghost predicate ByUse(cache: seq<Slot>, lastUse: map<string, nat>, tick: nat) {
    && (forall i :: 0 <= i < |cache| ==> cache[i].ip in lastUse && lastUse[cache[i].ip] < tick)
    && (forall i, j :: 0 <= i < j < |cache| ==> cache[i].ip in lastUse && cache[j].ip in lastUse
                                                && lastUse[cache[i].ip] < lastUse[cache[j].ip])
  }

  lemma UsedNow(cache: seq<Slot>, lastUse: map<string, nat>, tick: nat, slot: Slot)
    requires ByUse(cache, lastUse, tick)
    ensures ByUse(Put(cache, slot), lastUse[slot.ip := tick], tick + 1)
  {
    var i := Find(cache, slot.ip);
  }

  lemma HitByUse(c: Config, w: World, a: Addr, now: real, later: real)
    requires ByUse(w.cache, w.lastUse, w.tick)
    ensures var (cache, _, begun) := BeginOf(c, w, Ask(a, now, later));
            if begun.Cached? then ByUse(cache, w.lastUse[a.text := w.tick], w.tick + 1) else cache == w.cache
  {
    var i := Find(w.cache, a.text);
    if i < |w.cache| {
      UsedNow(w.cache, w.lastUse, w.tick, w.cache[i]);
    }
  }

  lemma WriteByUse(c: Config, w: World, f: Flight, info: Option<Info>)
    requires ByUse(w.cache, w.lastUse, w.tick)
    ensures ByUse(Store(c, w.cache, f.addr.text, f.startedAt, info), w.lastUse[f.addr.text := w.tick], w.tick + 1)
  {
    var slot := Slot(f.addr.text, Expiry(c, f.startedAt, info), info);
    UsedNow(w.cache, w.lastUse, w.tick, slot);
  }

  lemma StepByUse(c: Config, w: World, e: Event)
    requires ByUse(w.cache, w.lastUse, w.tick)
    ensures ByUse(Step(c, w, e).cache, Step(c, w, e).lastUse, Step(c, w, e).tick)
  {
    match e
    case Ask(a, now, later) => HitByUse(c, w, a, now, later);
    case Land(i, info) => if i < |w.flying| { WriteByUse(c, w, w.flying[i], info); }
  }

  lemma {:induction false} AlwaysByUse(c: Config, run: seq<Event>)
    ensures var w := After(c, run); ByUse(w.cache, w.lastUse, w.tick) && |w.cache| <= c.maxEntries
  {
    if run != [] {
      AlwaysByUse(c, DropLast(run));
      StepByUse(c, After(c, DropLast(run)), Last(run));
    }
  }

  /** The cache never exceeds its limit, and what a write evicts was used before everything it
      keeps. */
  lemma EvictsLeastRecent(c: Config, run: seq<Event>, gone: Slot, kept: Slot)
    requires run != [] && Last(run).Land?
    requires gone in After(c, DropLast(run)).cache && kept in After(c, run).cache
    requires forall s :: s in After(c, run).cache ==> s.ip != gone.ip
    ensures |After(c, run).cache| <= c.maxEntries
    ensures var w := After(c, run);
            gone.ip in w.lastUse && kept.ip in w.lastUse && w.lastUse[gone.ip] < w.lastUse[kept.ip]
  {
    var w, e := After(c, DropLast(run)), Last(run);
    AlwaysByUse(c, run);
    AlwaysByUse(c, DropLast(run));
    if e.i < |w.flying| {
      var f := w.flying[e.i];
      var slot := Slot(f.addr.text, Expiry(c, f.startedAt, e.info), e.info);
      UsedNow(w.cache, w.lastUse, w.tick, slot);
      var moved := PutKeeps(w.cache, slot, gone, c.maxEntries);
      EvictedFirst(Put(w.cache, slot), w.lastUse[slot.ip := w.tick], w.tick + 1, c.maxEntries, moved, kept);
    }
  }

  /** A write keeps every other entry until it evicts. */
  ghost function PutKeeps(cache: seq<Slot>, slot: Slot, gone: Slot, max: nat): (s: Slot)
    requires gone in cache
    ensures s in Put(cache, slot) && s.ip == gone.ip
  {
    var i := Find(cache, slot.ip);
    var j :| 0 <= j < |cache| && cache[j] == gone;
    var p := Put(cache, slot);
    assert j < i ==> p[j] == gone;
    assert j > i ==> p[j - 1] == gone;
    assert p[|p| - 1] == slot;
    if j == i then slot else gone
  }

  lemma EvictedFirst(cache: seq<Slot>, lastUse: map<string, nat>, tick: nat, max: nat, gone: Slot, kept: Slot)
    requires ByUse(cache, lastUse, tick) && gone in cache && kept in Evict(cache, max) && gone !in Evict(cache, max)
    ensures gone.ip in lastUse && kept.ip in lastUse && lastUse[gone.ip] < lastUse[kept.ip]
  {
    var left := Evict(cache, max);
    var d := |cache| - |left|;
    forall i | d <= i < |cache| ensures cache[i] in left {
      assert left[i - d] == cache[i];
    }
    var i :| 0 <= i < |cache| && cache[i] == gone;
    var j :| 0 <= j < |left| && left[j] == kept;
    assert cache[d + j] == kept;
  }

  lemma StoredLast(c: Config, cache: seq<Slot>, ip: string, startedAt: real, info: Option<Info>)
    requires c.maxEntries > 0
    ensures var after := Store(c, cache, ip, startedAt, info);
            var known := exists s :: s in cache && s.ip == ip;
            && |after| == Min(c.maxEntries, if known then |cache| else |cache| + 1)
            && after[|after| - 1].ip == ip && after[|after| - 1].info == info
            && after[|after| - 1].expires == startedAt + (if info == None then c.failureTtl else c.ttl)
  {
    var k := Find(cache, ip);
    if k < |cache| { assert cache[k] in cache; }
  }

  /** What comes back from a fetch is there afterwards, with its life time from the start of the look-up, in
      the last place; and no more than the limit asks for is evicted. */
  lemma LandStores(c: Config, run: seq<Event>, i: nat, info: Option<Info>)
    requires i < |After(c, run).flying| && c.maxEntries > 0
    ensures var w, f := After(c, run), After(c, run).flying[i];
            var cache := Step(c, w, Land(i, info)).cache;
            var known := exists s :: s in w.cache && s.ip == f.addr.text;
            && |cache| == Min(c.maxEntries, if known then |w.cache| else |w.cache| + 1)
            && cache[|cache| - 1].ip == f.addr.text && cache[|cache| - 1].info == info
            && cache[|cache| - 1].expires == f.startedAt + (if info == None then c.failureTtl else c.ttl)
  {
    var w, f := After(c, run), After(c, run).flying[i];
    StoredLast(c, w.cache, f.addr.text, f.startedAt, info);
  }

  // ---- Cached answers are what a recent fetch returned ---------------------------------------

  ghost predicate Backed(c: Config, slot: Slot, fetched: seq<Fetch>) {
    exists k :: 0 <= k < |fetched| && fetched[k].addr.text == slot.ip && fetched[k].info == slot.info
      && slot.expires == Expiry(c, fetched[k].startedAt, slot.info)
  }

  lemma StillBacked(c: Config, slot: Slot, fetched: seq<Fetch>, more: Fetch)
    requires Backed(c, slot, fetched)
    ensures Backed(c, slot, fetched + [more])
  {
    var k :| 0 <= k < |fetched| && fetched[k].addr.text == slot.ip && fetched[k].info == slot.info
      && slot.expires == Expiry(c, fetched[k].startedAt, slot.info);
    assert (fetched + [more])[k] == fetched[k];
  }

  lemma {:induction false} AlwaysBacked(c: Config, run: seq<Event>)
    ensures forall s :: s in After(c, run).cache ==> Backed(c, s, After(c, run).fetched)
  {
    if run != [] {
      var w, e := After(c, DropLast(run)), Last(run);
      AlwaysBacked(c, DropLast(run));
      forall s | s in After(c, run).cache ensures Backed(c, s, After(c, run).fetched) {
        match e
        case Ask(_, _, _) => assert s in w.cache;
        case Land(i, info) => if i < |w.flying| { LandBacked(c, w, i, info, s); }
      }
    }
  }

  lemma LandBacked(c: Config, w: World, i: nat, info: Option<Info>, s: Slot)
    requires i < |w.flying| && s in Step(c, w, Land(i, info)).cache
    requires forall x :: x in w.cache ==> Backed(c, x, w.fetched)
    ensures Backed(c, s, Step(c, w, Land(i, info)).fetched)
  {
    var f := w.flying[i];
    var slot := Slot(f.addr.text, Expiry(c, f.startedAt, info), info);
    if s == slot {
      assert Step(c, w, Land(i, info)).fetched[|w.fetched|] == Fetch(f.addr, f.startedAt, info);
    } else {
      StillBacked(c, s, w.fetched, Fetch(f.addr, f.startedAt, info));
    }
  }

  /** Some fetch for this address returned this, and it began recently enough. */
  ghost predicate RecentlyFetched(c: Config, ip: string, info: Option<Info>, now: real, fetched: seq<Fetch>) {
    exists k :: 0 <= k < |fetched| && fetched[k].addr.text == ip && fetched[k].info == info
      && now - fetched[k].startedAt < if info.Some? then c.ttl else c.failureTtl
  }

  /** A cached answer is what a fetch for that address returned, begun less than `ttl` ago, or
      a failure begun less than `failureTtl` ago. */
  lemma CachedIsRecent(c: Config, run: seq<Event>, a: Addr, now: real, later: real)
    ensures var w := After(c, run);
            var answer := BeginOf(c, w, Ask(a, now, later)).2;
            answer.Cached? ==> RecentlyFetched(c, a.text, answer.info, now, w.fetched)
  {
    var w := After(c, run);
    AlwaysBacked(c, run);
    var i := Find(w.cache, a.text);
    if i < |w.cache| && w.cache[i].expires > now {
      assert w.cache[i] in w.cache;
    }
  }

  // ---- What is fetched, and how often ----------------------------------------------------------

  /** Private addresses never leave the process, and nothing does when look-ups are off. */
  ghost predicate Discreet(c: Config, w: World) {
    && (forall f :: f in w.flying ==> f.addr.isGlobal && !f.addr.isMulticast && c.enabled)
    && (forall f :: f in w.fetched ==> f.addr.isGlobal && !f.addr.isMulticast && c.enabled)
  }

  lemma StepDiscreet(c: Config, w: World, e: Event)
    requires Discreet(c, w)
    ensures Discreet(c, Step(c, w, e))
  {
    var v := Step(c, w, e);
    match e
    case Ask(_, _, _) =>
    case Land(i, info) =>
      if i < |w.flying| {
        assert w.flying[i] in w.flying;
        assert forall f :: f in v.flying ==> f in w.flying;
      }
  }

  lemma {:induction false} OnlyPublicFetched(c: Config, run: seq<Event>)
    ensures Discreet(c, After(c, run))
  {
    if run != [] {
      OnlyPublicFetched(c, DropLast(run));
      StepDiscreet(c, After(c, DropLast(run)), Last(run));
    }
  }

  ghost function LimitOf(c: Config): RateLimit.Limit {
    RateLimit.Limit(c.maxPerMinute, MINUTE)
  }

  /** When the run's fetches were let out. */
  ghost function FetchTimes(c: Config, run: seq<Event>): seq<real> {
    if run == [] then [] else
    FetchTimes(c, DropLast(run)) + Started(c, After(c, DropLast(run)), Last(run))
  }

  lemma LimiterStep(c: Config, w: World, e: Event)
    requires w.hits == RateLimit.After(LimitOf(c), w.calls)
    ensures Step(c, w, e).hits == RateLimit.After(LimitOf(c), Step(c, w, e).calls)
    ensures RateLimit.History(LimitOf(c), Step(c, w, e).calls, OUTBOUND)
         == RateLimit.History(LimitOf(c), w.calls, OUTBOUND) + Started(c, w, e)
  {
    if e.Ask? {
      var calls := w.calls + [RateLimit.Allow(OUTBOUND, e.later)];
      assert DropLast(calls) == w.calls;
    }
  }

  /** The fetch this step starts, if any. */
  ghost function Started(c: Config, w: World, e: Event): seq<real> {
    if e.Ask? && BeginOf(c, w, e).2.Fetching? then [e.later] else []
  }

  lemma {:induction false} LimiterFollows(c: Config, run: seq<Event>)
    ensures After(c, run).hits == RateLimit.After(LimitOf(c), After(c, run).calls)
    ensures FetchTimes(c, run) == RateLimit.History(LimitOf(c), After(c, run).calls, OUTBOUND)
  {
    if run != [] {
      LimiterFollows(c, DropLast(run));
      LimiterStep(c, After(c, DropLast(run)), Last(run));
    }
  }

  /** No closed minute lets out more fetches than the limit, however look-ups interleave. */
  lemma FetchRate(c: Config, run: seq<Event>, from: real)
    requires RateLimit.Ordered(After(c, run).calls)
    ensures CountIn(FetchTimes(c, run), from, from + 60.0) <= if c.maxPerMinute > 0 then c.maxPerMinute else 0
  {
    LimiterFollows(c, run);
    RateLimit.WindowBound(LimitOf(c), After(c, run).calls, OUTBOUND, from);
  }

  lemma FoundOnce(cache: seq<Slot>, lastUse: map<string, nat>, tick: nat, slot: Slot)
    requires ByUse(cache, lastUse, tick) && slot in cache
    ensures Find(cache, slot.ip) < |cache| && cache[Find(cache, slot.ip)] == slot
  {
    var k :| 0 <= k < |cache| && cache[k] == slot;
    var i := Find(cache, slot.ip);
    assert forall a, b :: 0 <= a < b < |cache| ==> cache[a].ip != cache[b].ip;
    assert i <= k;
  }

  /** Main result: the answer to every look-up. A private or multicast address is answered as local, any
      other as disabled when look-ups are off; else by the cached entry that has not expired, if there is
      one; and else it is fetched if and only if fewer fetches than the limit were let out in the last
      minute. */
  lemma LookupIs(c: Config, run: seq<Event>, a: Addr, now: real, later: real)
    requires RateLimit.Ordered(After(c, run).calls + [RateLimit.Allow(OUTBOUND, later)])
    ensures var w := After(c, run);
            var answer := BeginOf(c, w, Ask(a, now, later)).2;
            if !a.isGlobal || a.isMulticast then answer == Local
            else if !c.enabled then answer == Disabled
            else if exists s :: s in w.cache && s.ip == a.text && s.expires > now then
              exists s :: s in w.cache && s.ip == a.text && s.expires > now && answer == Cached(s.info)
            else if CountIn(FetchTimes(c, run), later - 60.0, later) < c.maxPerMinute then answer == Fetching
            else answer == Unavailable
  {
    var w := After(c, run);
    AlwaysByUse(c, run);
    forall s | s in w.cache && s.ip == a.text ensures w.cache[Find(w.cache, a.text)] == s {
      FoundOnce(w.cache, w.lastUse, w.tick, s);
    }
    var i := Find(w.cache, a.text);
    if i < |w.cache| { assert w.cache[i] in w.cache; }
    LimiterDecides(c, run, later);
  }

  /** The limiter on its own. */
  lemma HistoryDecides(l: RateLimit.Limit, calls: seq<RateLimit.Call>, now: real)
    requires RateLimit.Ordered(calls + [RateLimit.Allow(OUTBOUND, now)])
    ensures RateLimit.AllowStep(RateLimit.After(l, calls), l.maxAttempts, l.window, OUTBOUND, now).1
       <==> CountIn(RateLimit.History(l, calls, OUTBOUND), now - l.window, now) < l.maxAttempts
  {
    var more := calls + [RateLimit.Allow(OUTBOUND, now)];
    assert DropLast(more) == calls && Last(more) == RateLimit.Allow(OUTBOUND, now);
    RateLimit.DecidesByHistory(l, more);
  }

  lemma LimiterDecides(c: Config, run: seq<Event>, later: real)
    requires RateLimit.Ordered(After(c, run).calls + [RateLimit.Allow(OUTBOUND, later)])
    ensures RateLimit.AllowStep(After(c, run).hits, c.maxPerMinute, MINUTE, OUTBOUND, later).1
       <==> CountIn(FetchTimes(c, run), later - 60.0, later) < c.maxPerMinute
  {
    LimiterFollows(c, run);
    HistoryDecides(LimitOf(c), After(c, run).calls, later);
  }
}
