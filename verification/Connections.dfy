/** The incoming connections a device reports in its heartbeats, and the one-shot hand-over of
    the ids an administrator asked to end. Both lists are kept as JSON text on the device row. */
module Connections {
  import opened Common
  import opened Text

  const MAX_CONNECTIONS: nat := 64
  const ID_LIMIT: int := 0x8000_0000

  // ---- Cleaning what a client reports ----------------------------------------------

  /** One element of the reported list: a number, a boolean (which Python would also call an
      integer), or anything else. */
  datatype Item = Num(n: int) | Flag(b: bool) | Junk

  ghost predicate Ascending(s: seq<int>) {
    forall i, j :: 0 <= i < j < |s| ==> s[i] < s[j]
  }

  predicate ValidId(n: int) {
    0 < n < ID_LIMIT
  }

  lemma ConsAscending(x: int, s: seq<int>)
    requires Ascending(s) && forall y :: y in s ==> x < y
    ensures Ascending([x] + s)
  {
    assert forall i :: 0 <= i < |s| ==> s[i] in s;
  }

  lemma HeadIsLeast(s: seq<int>)
    requires Ascending(s) && s != []
    ensures Ascending(s[1..]) && forall y :: y in s[1..] ==> s[0] < y
  {
  }

  function Insert(s: seq<int>, x: int): (r: seq<int>)
    ensures Ascending(s) ==> Ascending(r)
    ensures forall y :: y in r <==> y in s || y == x
  {
    if s == [] then [x]
    else if x < s[0] then [x] + s
    else if x == s[0] then s
    else
      var rest := Insert(s[1..], x);
      assert Ascending(s) ==> Ascending([s[0]] + rest) by {
        if Ascending(s) { HeadIsLeast(s); ConsAscending(s[0], rest); }
      }
      [s[0]] + rest
  }

  /** `sorted(set(s))`. */
  function SortedSet(s: seq<int>): (r: seq<int>)
    ensures Ascending(r)
    ensures forall y :: y in r <==> y in s
  {
    if s == [] then [] else Insert(SortedSet(s[..|s| - 1]), s[|s| - 1])
  }

  function ValidIds(raw: seq<Item>): (r: seq<int>)
    ensures forall x :: x in r <==> Num(x) in raw && ValidId(x)
  {
    if raw == [] then [] else
    var before := ValidIds(raw[..|raw| - 1]);
    match raw[|raw| - 1] {
      case Num(n) => if ValidId(n) then before + [n] else before
      case _ => before
    }
  }

  /** The ids from a heartbeat, sorted and without duplicates; `None` is not a list. */
  function CleanIds(raw: Option<seq<Item>>): seq<int> {
    if raw.None? then [] else
    var ids := SortedSet(ValidIds(raw.value));
    if |ids| > MAX_CONNECTIONS then ids[..MAX_CONNECTIONS] else ids
  }

  /** At most 64 ids in strictly ascending order, all of them reported and in range, and only
      larger ones are ever left out. */
  lemma CleanIdsSpec(raw: Option<seq<Item>>)
    ensures var ids := CleanIds(raw);
            && Ascending(ids) && |ids| <= 64
            && (forall x :: x in ids ==> raw.Some? && Num(x) in raw.value && 1 <= x <= 0x7FFF_FFFF)
            && (forall x :: raw.Some? && Num(x) in raw.value && 1 <= x <= 0x7FFF_FFFF && x !in ids ==>
                  |ids| == 64 && forall y :: y in ids ==> y < x)
  {
    if raw.Some? {
      var all := SortedSet(ValidIds(raw.value));
      var ids := CleanIds(raw);
      assert forall x :: x in ids ==> x in all;
      forall x, y | x in all && x !in ids && y in ids ensures y < x {
        var i :| 0 <= i < |all| && all[i] == x;
        var j :| 0 <= j < |ids| && ids[j] == y;
      }
    }
  }

  // ---- The JSON text on the row -------------------------------------------------------

  function Join(ids: seq<nat>): string
    requires ids != []
  {
    if |ids| == 1 then Decimal(ids[0]) + "]" else Decimal(ids[0]) + ", " + Join(ids[1..])
  }

  /** `json.dumps(ids) if ids else None`. */
  function Dump(ids: seq<nat>): Option<string> {
    if ids == [] then None else Some("[" + Join(ids))
  }

  function DigitCount(s: string): (n: nat)
    ensures n <= |s| && forall i :: 0 <= i < n ==> IsDigit(s[i])
  {
    if s == [] || !IsDigit(s[0]) then 0 else 1 + DigitCount(s[1..])
  }

  function ParseItems(s: string): Option<seq<nat>> {
    var n := DigitCount(s);
    if n == 0 then None else
    var v, rest := DecimalValue(s[..n]), s[n..];
    if rest == "]" then Some([v])
    else if |rest| >= 2 && rest[0] == ',' && rest[1] == ' ' then
      match ParseItems(rest[2..])
      case None => None
      case Some(more) => Some([v] + more)
    else None
  }

  /** Reading the row back; text that is no list of numbers reads as an empty list. */
  function Load(raw: Option<string>): seq<nat> {
    if raw.None? || raw.value == [] || raw.value[0] != '[' then [] else
    match ParseItems(raw.value[1..])
    case None => []
    case Some(ids) => ids
  }

  lemma {:induction false} DigitCountStops(d: string, rest: string)
    requires forall i :: 0 <= i < |d| ==> IsDigit(d[i])
    requires rest != [] && !IsDigit(rest[0])
    ensures DigitCount(d + rest) == |d|
  {
    if d == [] {
      assert d + rest == rest;
    } else {
      DigitCountStops(d[1..], rest);
      assert (d + rest)[1..] == d[1..] + rest;
    }
  }

  /** Reading one number and what follows it. */
  lemma ParseNumber(n: nat, rest: string)
    requires rest == "]" || (|rest| >= 2 && rest[0] == ',' && rest[1] == ' ')
    ensures ParseItems(Decimal(n) + rest) ==
            if rest == "]" then Some([n])
            else match ParseItems(rest[2..]) case None => None case Some(more) => Some([n] + more)
  {
    var d := Decimal(n);
    DecimalRoundTrip(n);
    DigitCountStops(d, rest);
    assert (d + rest)[..|d|] == d && (d + rest)[|d|..] == rest;
  }

  lemma {:induction false} JoinRoundTrip(ids: seq<nat>)
    requires ids != []
    ensures ParseItems(Join(ids)) == Some(ids)
  {
    if |ids| == 1 {
      assert ids == [ids[0]];
      ParseNumber(ids[0], "]");
    } else {
      var rest := ", " + Join(ids[1..]);
      assert Join(ids) == Decimal(ids[0]) + rest;
      assert rest[2..] == Join(ids[1..]);
      ParseNumber(ids[0], rest);
      JoinRoundTrip(ids[1..]);
      assert [ids[0]] + ids[1..] == ids;
    }
  }

  /** A list survives the JSON store. */
  lemma StoreRoundTrip(ids: seq<nat>)
    ensures Load(Dump(ids)) == ids
  {
    if ids != [] {
      JoinRoundTrip(ids);
      assert ("[" + Join(ids))[1..] == Join(ids);
    }
  }

  // ---- The two columns and what changes them ---------------------------------------------

  datatype Columns = Columns(live: Option<string>, pending: Option<string>)

  const EMPTY: Columns := Columns(None, None)

  function Filter(s: seq<nat>, live: seq<int>): (r: seq<nat>)
    ensures forall x :: x in r <==> x in s && x in live
    ensures Ascending(s) ==> Ascending(r)
  {
    if s == [] then [] else
    var rest := Filter(s[1..], live);
    assert Ascending(s) ==> Ascending([s[0]] + rest) && Ascending(rest) by {
      if Ascending(s) { HeadIsLeast(s); ConsAscending(s[0], rest); }
    }
    if s[0] in live then [s[0]] + rest else rest
  }

  lemma CleanAreNat(raw: Option<seq<Item>>)
    ensures forall i :: 0 <= i < |CleanIds(raw)| ==> 0 < CleanIds(raw)[i] < ID_LIMIT
  {
    CleanIdsSpec(raw);
    forall i | 0 <= i < |CleanIds(raw)| ensures 0 < CleanIds(raw)[i] < ID_LIMIT {
      assert CleanIds(raw)[i] in CleanIds(raw);
    }
  }

  function AsNats(s: seq<int>): (r: seq<nat>)
    requires forall i :: 0 <= i < |s| ==> 0 <= s[i]
    ensures r == s
  {
    if s == [] then [] else [s[0]] + AsNats(s[1..])
  }

  /** The ids of a report, as they are stored. */
  function Reported(raw: Option<seq<Item>>): (r: seq<nat>)
    ensures r == CleanIds(raw)
  {
    CleanAreNat(raw);
    AsNats(CleanIds(raw))
  }

  /** A heartbeat that counts: the new columns and the ids to close now. */
  function Recorded(c: Columns, raw: Option<seq<Item>>): (Columns, seq<nat>) {
    var live, pending := Dump(Reported(raw)), Load(c.pending);
    if pending == [] then (Columns(live, c.pending), [])
    else (Columns(live, None), Filter(pending, CleanIds(raw)))
  }

  function SortedNats(s: seq<nat>): (r: seq<nat>)
    ensures Ascending(r) && forall y :: y in r <==> y in s
  {
    var t := SortedSet(s);
    assert forall i :: 0 <= i < |t| ==> t[i] in t;
    AsNats(t)
  }

  /** The ids a request picks: all live ones, or the named ones when all of them are live. */
  function Chosen(live: seq<nat>, requested: Option<seq<nat>>): Option<seq<nat>> {
    if requested.None? then Some(live)
    else if exists i :: 0 <= i < |requested.value| && requested.value[i] !in live then None
    else Some(SortedNats(requested.value))
  }

  /** Queue ids to be ended; `None` when one is not live. */
  function Queued(c: Columns, requested: Option<seq<nat>>): Option<(Columns, seq<nat>)> {
    match Chosen(Load(c.live), requested)
    case None => None
    case Some(chosen) =>
      Some((if chosen == [] then c
            else Columns(c.live, Dump(SortedNats(Load(c.pending) + chosen))), chosen))
  }

  // ---- The same, on one row in place ------------------------------------------------------

  class Row {
    var liveConnections: Option<string>
    var pendingDisconnect: Option<string>

    ghost function State(): Columns
      reads this
    {
      Columns(liveConnections, pendingDisconnect)
    }

    constructor ()
      ensures State() == EMPTY
    {
      liveConnections, pendingDisconnect := None, None;
    }

    method RecordHeartbeat(raw: Option<seq<Item>>) returns (disconnect: seq<nat>)
      modifies this
      ensures (State(), disconnect) == Recorded(old(State()), raw)
    {
      var live := Reported(raw);
      var encoded := Dump(live);
      if liveConnections != encoded {
        liveConnections := encoded;
      }
      var pending := Load(pendingDisconnect);
      if pending == [] { return []; }
      disconnect := Filter(pending, live);
      pendingDisconnect := None;
    }

    method RequestDisconnect(requested: Option<seq<nat>>) returns (chosen: Option<seq<nat>>)
      modifies this`pendingDisconnect
      ensures match Queued(old(State()), requested)
              case None => chosen == None && State() == old(State())
              case Some((c, ids)) => chosen == Some(ids) && State() == c
      ensures chosen.None? <==> requested.Some? && exists x :: x in requested.value && x !in Load(liveConnections)
    {
      var live := Load(liveConnections);
      chosen := Chosen(live, requested);
      if chosen.Some? && chosen.value != [] {
        pendingDisconnect := Dump(SortedNats(Load(pendingDisconnect) + chosen.value));
      }
    }
  }

  // ---- Whole runs -------------------------------------------------------------------------

  /** `Report` is a heartbeat that was recorded, `Reset` a rejection of the device. */
  datatype Event = Report(raw: Option<seq<Item>>) | Request(ids: Option<seq<nat>>) | Reset

  ghost function Step(c: Columns, ev: Event): Columns {
    match ev
    case Report(raw) => Recorded(c, raw).0
    case Request(ids) =>
      (match Queued(c, ids)
       case None => c
       case Some((c', _)) => c')
    case Reset => EMPTY
  }

  ghost function After(run: seq<Event>): Columns {
    if run == [] then EMPTY else Step(After(DropLast(run)), Last(run))
  }

  /** What the run's last report was answered with. */
  ghost function Answer(run: seq<Event>): seq<nat>
    requires run != [] && Last(run).Report?
  {
    Recorded(After(DropLast(run)), Last(run).raw).1
  }

  /** The ids of the last recorded heartbeat, told from the run alone. */
  ghost function LastLive(run: seq<Event>): seq<nat> {
    if run == [] then [] else
    match Last(run)
    case Report(raw) => Reported(raw)
    case Request(_) => LastLive(DropLast(run))
    case Reset => []
  }

  /** The ids the run's last event asked to end, told from the run alone. */
  ghost function Asked(run: seq<Event>): set<nat>
    requires run != []
  {
    if !Last(run).Request? then {}
    else
      var live := Elements(LastLive(DropLast(run)));
      match Last(run).ids
      case None => live
      case Some(ids) => if Elements(ids) <= live then Elements(ids) else {}
  }

  /** The ids asked for since the last recorded heartbeat. */
  ghost function Outstanding(run: seq<Event>): set<nat> {
    if run == [] || !Last(run).Request? then {} else Outstanding(DropLast(run)) + Asked(run)
  }

  /** A request picks what it asks for, and is refused exactly when it names an id that is not live. */
  lemma ChosenIsAsked(live: seq<nat>, requested: Option<seq<nat>>)
    ensures var chosen := Chosen(live, requested);
            && (chosen.None? <==> requested.Some? && !(Elements(requested.value) <= Elements(live)))
            && (chosen.Some? ==>
                  Elements(chosen.value) == if requested.None? then Elements(live) else Elements(requested.value))
  {
    if requested.Some? {
      if i :| 0 <= i < |requested.value| && requested.value[i] !in live {
        assert requested.value[i] in Elements(requested.value);
      }
    }
  }

  /** In every run the columns hold exactly the last live list and the outstanding requests,
      and only live connections are outstanding. */
  lemma {:induction false} ColumnsHold(run: seq<Event>)
    ensures Load(After(run).live) == LastLive(run)
    ensures Ascending(Load(After(run).pending)) && Elements(Load(After(run).pending)) == Outstanding(run)
    ensures Outstanding(run) <= Elements(LastLive(run))
  {
    if run != [] {
      var init := DropLast(run);
      ColumnsHold(init);
      var c := After(init);
      match Last(run)
      case Report(raw) =>
        StoreRoundTrip(Reported(raw));
        if Load(c.pending) != [] { StoreRoundTrip([]); }
      case Request(ids) =>
        var chosen := Chosen(LastLive(init), ids);
        ChosenIsAsked(LastLive(init), ids);
        if chosen.Some? {
          var queue := SortedNats(Load(c.pending) + chosen.value);
          StoreRoundTrip(queue);
          assert Elements(queue) == Outstanding(init) + Elements(chosen.value);
          if chosen.value == [] { assert Elements(chosen.value) == {}; }
        }
      case Reset =>
    }
  }

  /** The live list is at most 64 ids, ascending and in range, in every run. */
  lemma {:induction false} LiveIsClean(run: seq<Event>)
    ensures var live := Load(After(run).live);
            Ascending(live) && |live| <= MAX_CONNECTIONS && forall x :: x in live ==> ValidId(x)
  {
    ColumnsHold(run);
    if run != [] {
      match Last(run)
      case Report(raw) => CleanIdsSpec(raw);
      case Request(_) => ColumnsHold(DropLast(run)); LiveIsClean(DropLast(run));
      case Reset =>
    }
  }

  /** A heartbeat is answered with exactly the ids asked for since the previous recorded one
      that it still reports, in ascending order. */
  lemma Delivery(run: seq<Event>)
    requires run != [] && Last(run).Report?
    ensures Ascending(Answer(run))
    ensures Elements(Answer(run)) == Outstanding(DropLast(run)) * Elements(Reported(Last(run).raw))
  {
    ColumnsHold(DropLast(run));
    var c := After(DropLast(run));
    assert forall x: nat :: x in Load(c.pending) <==> x in Outstanding(DropLast(run));
  }

  /** The event at `k` asked for `x` to be ended. */
  ghost predicate AskedAt(run: seq<Event>, k: nat, x: nat) {
    k < |run| && x in Asked(run[..k + 1])
  }

  lemma {:induction false} OutstandingSource(run: seq<Event>, from: nat, x: nat)
    requires from <= |run| && x in Outstanding(run)
    requires from > 0 && run[from - 1].Report?
    ensures exists k :: from <= k < |run| && AskedAt(run, k, x)
    decreases |run|
  {
    if x in Asked(run) {
      assert run[..|run|] == run;
      assert AskedAt(run, |run| - 1, x);
    } else {
      OutstandingSource(DropLast(run), from, x);
      var k :| from <= k < |run| - 1 && AskedAt(DropLast(run), k, x);
      assert DropLast(run)[..k + 1] == run[..k + 1];
      assert AskedAt(run, k, x);
    }
  }

  /** The report at `j` was answered with `x` among the ids to close. */
  ghost predicate Delivered(run: seq<Event>, j: nat, x: nat) {
    j < |run| && run[j].Report? && x in Recorded(After(run[..j]), run[j].raw).1
  }

  lemma DeliveredWasAsked(run: seq<Event>, j: nat, x: nat)
    requires Delivered(run, j, x)
    ensures x in Outstanding(run[..j])
  {
    PrefixStep(run, j);
    Delivery(run[..j + 1]);
    assert x in Elements(Answer(run[..j + 1]));
  }

  /** Each request is delivered at most once: between two deliveries of an id somebody asked
      for it again. */
  lemma AtMostOnce(run: seq<Event>, i: nat, j: nat, x: nat)
    requires i < j && Delivered(run, i, x) && Delivered(run, j, x)
    ensures exists k :: i < k < j && AskedAt(run, k, x)
  {
    DeliveredWasAsked(run, j, x);
    LaterRequest(run, i, j, x);
  }

  lemma LaterRequest(run: seq<Event>, i: nat, j: nat, x: nat)
    requires i < j <= |run| && run[i].Report? && x in Outstanding(run[..j])
    ensures exists k :: i < k < j && AskedAt(run, k, x)
  {
    assert run[..j][i] == run[i];
    OutstandingSource(run[..j], i + 1, x);
    var k :| i + 1 <= k < j && AskedAt(run[..j], k, x);
    assert run[..j][..k + 1] == run[..k + 1];
    assert AskedAt(run, k, x);
  }
}
