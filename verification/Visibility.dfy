/** Which devices a user sees, in the three places that decide it: the paged list, the check on one
    device, and the live updates. */
module Visibility {
  import opened Common
  import opened Devices

  /** A row of the device table: its number and the device. */
  datatype Row = Row(id: nat, device: Device)

  datatype Share = Share(device: nat, user: nat, permission: string, expires: Option<int>)

  // ---- The check on one device ------------------------------------------------------------

  predicate IsActive(s: Share, now: int) {
    s.expires.None? || now < s.expires.value
  }

  /** The permission of the first active share of this device with this user. */
  function ActiveSharePermission(u: User, d: Row, shares: seq<Share>, now: int): Option<string> {
    if shares == [] then None
    else if shares[0].device == d.id && shares[0].user == u.id && IsActive(shares[0], now)
    then Some(shares[0].permission)
    else ActiveSharePermission(u, d, shares[1..], now)
  }

  predicate CanView(u: User, d: Row, shares: seq<Share>, now: int) {
    u.admin
    || (d.device.approval == Approved
        && (d.device.owner == Some(u.id) || ActiveSharePermission(u, d, shares, now).Some?))
  }

  // ---- The list -------------------------------------------------------------------------

  datatype Status = Any | Online | Offline | Archived | PendingOnly | RejectedOnly

  /** The devices actively shared with a user, as the query selects them. */
  predicate SharedWith(d: Row, user: nat, shares: seq<Share>, now: int) {
    exists i :: 0 <= i < |shares| && shares[i].device == d.id && shares[i].user == user
                && (shares[i].expires.None? || shares[i].expires.value > now)
  }

  /** No restriction for an administrator who names no owner; else the owner's devices and those
      shared with `sharedWith`. */
  predicate InScope(d: Row, owner: Option<nat>, sharedWith: Option<nat>, shares: seq<Share>, now: int) {
    (owner.None? && sharedWith.None?)
    || (owner.Some? && d.device.owner == owner)
    || (sharedWith.Some? && SharedWith(d, sharedWith.value, shares, now))
  }

  /** Archived devices are left out unless asked for, or unless the user is searching. */
  predicate HasStatus(d: Row, status: Status, searching: bool, now: int, timeout: int) {
    && d.device.approval == (match status case PendingOnly => Pending case RejectedOnly => Rejected case _ => Approved)
    && (match status
        case PendingOnly => true
        case RejectedOnly => true
        case Archived => d.device.archivedAt.Some?
        case _ => searching || d.device.archivedAt.None?)
    && (status == Online ==> d.device.lastSeen.Some? && d.device.lastSeen.value >= now - timeout)
    && (status == Offline ==> !(d.device.lastSeen.Some? && d.device.lastSeen.value >= now - timeout))
  }

  /** `key` is the sort column; devices without a value go last whichever way it sorts, and the
      id breaks ties. */
  datatype Ordering = Ordering(key: Row -> Option<int>, descending: bool)

  predicate Before(a: Row, b: Row, o: Ordering) {
    var x, y := o.key(a), o.key(b);
    if x.None? && y.None? then a.id < b.id
    else if x.None? then false
    else if y.None? then true
    else if x.value == y.value then a.id < b.id
    else if o.descending then x.value > y.value
    else x.value < y.value
  }

  /** What one call asks for; `narrowed` is its group, its tag and its search text, as one test. */
  datatype Query = Query(
    owner: Option<nat>,
    sharedWith: Option<nat>,
    status: Status,
    searching: bool,
    narrowed: Row -> bool,
    ordering: Ordering,
    timeout: int)

  predicate Matches(d: Row, q: Query, shares: seq<Share>, now: int) {
    && InScope(d, q.owner, q.sharedWith, shares, now)
    && HasStatus(d, q.status, q.searching, now, q.timeout)
    && q.narrowed(d)
  }

  function Insert(d: Row, sorted: seq<Row>, o: Ordering): seq<Row> {
    if sorted == [] || Before(d, sorted[0], o) then [d] + sorted
    else [sorted[0]] + Insert(d, sorted[1..], o)
  }

  /** All rows the query selects, in its order. */
  function Selected(table: seq<Row>, q: Query, shares: seq<Share>, now: int): seq<Row> {
    if table == [] then []
    else
      var rest := Selected(table[1..], q, shares, now);
      if Matches(table[0], q, shares, now) then Insert(table[0], rest, q.ordering) else rest
  }

  datatype Listed = Listed(items: seq<Row>, total: nat)

  /** A page number below 1 counts as 1; a page has between 1 and 200 rows. */
  function PageSize(size: int): (n: nat)
    ensures 1 <= n <= 200
  {
    if size < 1 then 1 else if size > 200 then 200 else size
  }

  function PageNumber(page: int): (n: nat)
    ensures n >= 1
  {
    if page < 1 then 1 else page
  }

  function Window(rows: seq<Row>, offset: nat, limit: nat): seq<Row> {
    if offset >= |rows| then [] else if offset + limit > |rows| then rows[offset..] else rows[offset..offset + limit]
  }

  function ListDevices(table: seq<Row>, q: Query, shares: seq<Share>, page: int, size: int, now: int): Listed {
    var rows := Selected(table, q, shares, now);
    Listed(Window(rows, (PageNumber(page) - 1) * PageSize(size), PageSize(size)), |rows|)
  }

  function Everything(): Row -> bool {
    d => true
  }

  /** The query of a user's list, not narrowed: administrators see all devices, or those of the owner they
      ask for; anyone else sees their own and those shared with them, whatever they ask for. */
  function UserQuery(u: User, asked: Option<nat>, status: Status, o: Ordering, timeout: int): Query {
    Query(if u.admin then asked else Some(u.id), if u.admin then None else Some(u.id),
          status, false, Everything(), o, timeout)
  }

  /** Only administrators may list devices awaiting approval. */
  function ListFor(
      u: User, asked: Option<nat>, status: Status, o: Ordering, timeout: int,
      table: seq<Row>, shares: seq<Share>, page: int, size: int, now: int): Option<Listed>
  {
    if (status == PendingOnly || status == RejectedOnly) && !u.admin then None
    else Some(ListDevices(table, UserQuery(u, asked, status, o, timeout), shares, page, size, now))
  }

  /** The same list narrowed by a group, a tag or a search text. */
  function Narrowed(q: Query, searching: bool, narrowed: Row -> bool): Query {
    q.(searching := searching, narrowed := narrowed)
  }

  // ---- Order and content of the whole list ----------------------------------------------------

  ghost predicate InOrder(rows: seq<Row>, o: Ordering) {
    forall i, j :: 0 <= i < j < |rows| ==> Before(rows[i], rows[j], o)
  }

  ghost predicate UniqueIds(table: seq<Row>) {
    forall i, j :: 0 <= i < j < |table| ==> table[i].id != table[j].id
  }

  /** Any two devices with different ids are ordered, one way only. */
  lemma BeforeIsTotal(a: Row, b: Row, c: Row, o: Ordering)
    ensures a.id != b.id ==> (Before(a, b, o) <==> !Before(b, a, o))
    ensures Before(a, b, o) && Before(b, c, o) ==> Before(a, c, o)
    ensures !Before(a, a, o)
  {
  }

  lemma {:induction false} InsertContent(d: Row, sorted: seq<Row>, o: Ordering)
    ensures forall x :: x in Insert(d, sorted, o) <==> x == d || x in sorted
  {
    if sorted != [] && !Before(d, sorted[0], o) {
      InsertContent(d, sorted[1..], o);
      assert sorted == [sorted[0]] + sorted[1..];
    }
  }

  lemma {:induction false} InsertOrder(d: Row, sorted: seq<Row>, o: Ordering)
    requires InOrder(sorted, o) && forall x :: x in sorted ==> x.id != d.id
    ensures InOrder(Insert(d, sorted, o), o)
  {
    if sorted != [] {
      BeforeIsTotal(d, sorted[0], d, o);
      if Before(d, sorted[0], o) {
        forall x | x in sorted ensures Before(d, x, o) { BeforeIsTotal(d, sorted[0], x, o); }
      } else {
        var rest := sorted[1..];
        assert forall x :: x in rest ==> x in sorted;
        InsertOrder(d, rest, o);
        InsertContent(d, rest, o);
        forall x | x in rest ensures Before(sorted[0], x, o) {
          var k :| 0 <= k < |rest| && rest[k] == x;
          assert sorted[k + 1] == x;
        }
      }
    }
  }

  /** Main result: the list is in strict order, and holds exactly the matching devices. */
  lemma {:induction false} SelectedIs(table: seq<Row>, q: Query, shares: seq<Share>, now: int)
    requires UniqueIds(table)
    ensures InOrder(Selected(table, q, shares, now), q.ordering)
    ensures forall d :: d in Selected(table, q, shares, now) <==> d in table && Matches(d, q, shares, now)
  {
    if table != [] {
      var d, rest := table[0], Selected(table[1..], q, shares, now);
      SelectedIs(table[1..], q, shares, now);
      assert table == [d] + table[1..];
      forall x | x in rest ensures x.id != d.id {
        var k :| 0 <= k < |table[1..]| && table[1..][k] == x;
        assert table[k + 1] == x;
      }
      InsertOrder(d, rest, q.ordering);
      InsertContent(d, rest, q.ordering);
    }
  }

  // ---- The pages -----------------------------------------------------------------------

  /** The first `pages` pages, one after the other. */
  function Pages(table: seq<Row>, q: Query, shares: seq<Share>, pages: nat, size: int, now: int): seq<Row> {
    if pages == 0 then []
    else Pages(table, q, shares, pages - 1, size, now) + ListDevices(table, q, shares, pages, size, now).items
  }

  lemma PageIs(table: seq<Row>, q: Query, shares: seq<Share>, page: nat, size: int, now: int)
    requires page >= 1
    ensures ListDevices(table, q, shares, page, size, now).items
         == Window(Selected(table, q, shares, now), (page - 1) * PageSize(size), PageSize(size))
  {
  }

  lemma {:induction false} PagesArePrefix(
      table: seq<Row>, q: Query, shares: seq<Share>, pages: nat, size: int, now: int)
    ensures Pages(table, q, shares, pages, size, now)
         == Window(Selected(table, q, shares, now), 0, pages * PageSize(size))
  {
    if pages > 0 {
      var rows, n := Selected(table, q, shares, now), PageSize(size);
      PagesArePrefix(table, q, shares, pages - 1, size, now);
      PageIs(table, q, shares, pages, size, now);
      OneMorePage(pages, n);
      Windows(rows, (pages - 1) * n, n);
    }
  }

  lemma OneMorePage(pages: nat, n: nat)
    requires pages > 0
    ensures pages * n == (pages - 1) * n + n && (pages - 1) * n >= 0
  {
  }

  lemma Windows(rows: seq<Row>, n: nat, size: nat)
    ensures Window(rows, 0, n) + Window(rows, n, size) == Window(rows, 0, n + size)
  {
  }

  /** The pages a client has to ask for to see `total` rows. */
  predicate Enough(pages: nat, size: int, total: nat) {
    pages * PageSize(size) >= total
  }

  /** Main result: for any page size, the pages together are the whole list, each device once. */
  lemma PagesAreList(table: seq<Row>, q: Query, shares: seq<Share>, pages: nat, size: int, now: int)
    requires UniqueIds(table) && Enough(pages, size, ListDevices(table, q, shares, 1, size, now).total)
    ensures var all := Pages(table, q, shares, pages, size, now);
            && all == Selected(table, q, shares, now)
            && |all| == ListDevices(table, q, shares, 1, size, now).total
            && InOrder(all, q.ordering) && UniqueIds(all)
            && (forall d :: d in all <==> d in table && Matches(d, q, shares, now))
  {
    PagesArePrefix(table, q, shares, pages, size, now);
    SelectedIs(table, q, shares, now);
    var all := Selected(table, q, shares, now);
    forall i, j | 0 <= i < j < |all| ensures all[i].id != all[j].id {
      if all[i].id == all[j].id {
        SameDevice(table, all[i], all[j]);
        BeforeIsTotal(all[i], all[j], all[i], q.ordering);
      }
    }
  }

  lemma SameDevice(table: seq<Row>, a: Row, b: Row)
    requires UniqueIds(table) && a in table && b in table && a.id == b.id
    ensures a == b
  {
    var i :| 0 <= i < |table| && table[i] == a;
    var j :| 0 <= j < |table| && table[j] == b;
  }

  // ---- The list against the check ----------------------------------------------------------

  lemma {:induction false} PermissionIsShare(u: User, d: Row, shares: seq<Share>, now: int)
    ensures ActiveSharePermission(u, d, shares, now).Some? <==> SharedWith(d, u.id, shares, now)
  {
    if shares != [] {
      var rest := shares[1..];
      PermissionIsShare(u, d, rest, now);
      if SharedWith(d, u.id, rest, now) {
        var i :| 0 <= i < |rest| && rest[i].device == d.id && rest[i].user == u.id
                 && (rest[i].expires.None? || rest[i].expires.value > now);
        assert shares[i + 1] == rest[i];
      }
      if SharedWith(d, u.id, shares, now) {
        var i :| 0 <= i < |shares| && shares[i].device == d.id && shares[i].user == u.id
                 && (shares[i].expires.None? || shares[i].expires.value > now);
        if i > 0 { assert rest[i - 1] == shares[i]; }
      }
    }
  }

  /** Main result: for a user who is no administrator, all pages of the default list together show
      exactly the devices that are not archived and that the check lets the user view. */
  lemma ListIsCheck(
      table: seq<Row>, u: User, o: Ordering, timeout: int, shares: seq<Share>, pages: nat, size: int, now: int)
    requires UniqueIds(table) && !u.admin
    requires Enough(pages, size, ListDevices(table, UserQuery(u, None, Any, o, timeout), shares, 1, size, now).total)
    ensures forall d :: d in Pages(table, UserQuery(u, None, Any, o, timeout), shares, pages, size, now)
                        <==> d in table && d.device.archivedAt.None? && CanView(u, d, shares, now)
  {
    var q := UserQuery(u, None, Any, o, timeout);
    PagesAreList(table, q, shares, pages, size, now);
    forall d ensures Matches(d, q, shares, now) <==> d.device.archivedAt.None? && CanView(u, d, shares, now) {
      PermissionIsShare(u, d, shares, now);
    }
  }

  /** An administrator's default list leaves out what the check lets them view all the same: it is
      the devices that are approved and not archived. */
  lemma AdminList(table: seq<Row>, u: User, o: Ordering, timeout: int, shares: seq<Share>, now: int)
    requires UniqueIds(table) && u.admin
    ensures forall d :: d in Selected(table, UserQuery(u, None, Any, o, timeout), shares, now)
                        <==> d in table && d.device.archivedAt.None? && d.device.approval == Approved
    ensures forall d: Row :: CanView(u, d, shares, now)
  {
    SelectedIs(table, UserQuery(u, None, Any, o, timeout), shares, now);
  }

  // ---- What a list shows, told from the device ------------------------------------------------------

  /** The devices a user's list is about. */
  ghost predicate Theirs(u: User, asked: Option<nat>, d: Row, shares: seq<Share>, now: int) {
    if u.admin then asked.None? || d.device.owner == asked
    else
      || d.device.owner == Some(u.id)
      || exists s :: s in shares && s.device == d.id && s.user == u.id && (s.expires.Some? ==> now < s.expires.value)
  }

  /** Seen no longer than the timeout ago. */
  ghost predicate SeenLately(d: Row, now: int, timeout: int) {
    d.device.lastSeen.Some? && now - d.device.lastSeen.value <= timeout
  }

  ghost predicate Shown(
      u: User, asked: Option<nat>, d: Row, status: Status, searching: bool, shares: seq<Share>, now: int, timeout: int)
  {
    Theirs(u, asked, d, shares, now) &&
    match d.device.approval
    case Pending => status == PendingOnly
    case Rejected => status == RejectedOnly
    case Approved =>
      if status == Archived then d.device.archivedAt.Some?
      else
        && (searching || d.device.archivedAt.None?)
        && (status == Any
            || (status == Online && SeenLately(d, now, timeout)) || (status == Offline && !SeenLately(d, now, timeout)))
  }

  lemma TheirsInScope(u: User, asked: Option<nat>, d: Row, shares: seq<Share>, now: int)
    ensures var q := UserQuery(u, asked, Any, Ordering((r: Row) => None, false), 0);
            InScope(d, q.owner, q.sharedWith, shares, now) <==> Theirs(u, asked, d, shares, now)
  {
    if SharedWith(d, u.id, shares, now) {
      var i :| 0 <= i < |shares| && shares[i].device == d.id && shares[i].user == u.id
               && (shares[i].expires.None? || shares[i].expires.value > now);
      assert shares[i] in shares;
    }
  }

  /** Main result. What each of the lists shows, narrowed by any test: the devices of that approval among
      the user's, archived ones only where they are asked for or searched, and online and offline told
      apart by when they were last seen. */
  lemma ListShows(
      table: seq<Row>, u: User, asked: Option<nat>, status: Status, o: Ordering, timeout: int,
      searching: bool, narrowed: Row -> bool, shares: seq<Share>, now: int)
    requires UniqueIds(table)
    ensures forall d :: d in Selected(table, Narrowed(UserQuery(u, asked, status, o, timeout), searching, narrowed),
                                      shares, now)
                        <==> d in table && narrowed(d) && Shown(u, asked, d, status, searching, shares, now, timeout)
  {
    var q := Narrowed(UserQuery(u, asked, status, o, timeout), searching, narrowed);
    SelectedIs(table, q, shares, now);
    forall d ensures Matches(d, q, shares, now)
                     <==> narrowed(d) && Shown(u, asked, d, status, searching, shares, now, timeout)
    {
      TheirsInScope(u, asked, d, shares, now);
    }
  }

  /** So the online and the offline list divide the default list between them, by when a device was last
      seen, and the archived list shares nothing with it. */
  lemma OnlineOrOffline(
      table: seq<Row>, u: User, asked: Option<nat>, o: Ordering, timeout: int, shares: seq<Share>, now: int, d: Row)
    requires UniqueIds(table)
    ensures var In := (status: Status) => d in Selected(table, UserQuery(u, asked, status, o, timeout), shares, now);
            && (In(Online) <==> In(Any) && d.device.lastSeen.Some? && d.device.lastSeen.value >= now - timeout)
            && (In(Offline) <==> In(Any) && (d.device.lastSeen.None? || d.device.lastSeen.value < now - timeout))
            && !(In(Any) && In(Archived))
  {
    forall status ensures Narrowed(UserQuery(u, asked, status, o, timeout), false, Everything())
                           == UserQuery(u, asked, status, o, timeout) {}
    ListShows(table, u, asked, Any, o, timeout, false, Everything(), shares, now);
    ListShows(table, u, asked, Online, o, timeout, false, Everything(), shares, now);
    ListShows(table, u, asked, Offline, o, timeout, false, Everything(), shares, now);
    ListShows(table, u, asked, Archived, o, timeout, false, Everything(), shares, now);
  }

  /** Who may have the lists of waiting and of rejected devices, and what they then hold. */
  lemma WaitingLists(
      u: User, asked: Option<nat>, status: Status, o: Ordering, timeout: int,
      table: seq<Row>, shares: seq<Share>, page: int, size: int, now: int)
    requires UniqueIds(table)
    ensures var r := ListFor(u, asked, status, o, timeout, table, shares, page, size, now);
            && (r.None? <==> !u.admin && status in {PendingOnly, RejectedOnly})
            && (r.Some? ==> forall d :: d in r.value.items ==>
                  && d in table && Theirs(u, asked, d, shares, now)
                  && (!u.admin ==> d.device.approval == Approved))
  {
    var q := UserQuery(u, asked, status, o, timeout);
    ListShows(table, u, asked, status, o, timeout, false, Everything(), shares, now);
    assert Narrowed(q, false, Everything()) == q;
    var rows := Selected(table, q, shares, now);
    forall d | d in ListDevices(table, q, shares, page, size, now).items ensures d in rows {
      FromRows(rows, (PageNumber(page) - 1) * PageSize(size), PageSize(size), d);
    }
  }

  lemma FromRows(rows: seq<Row>, from: nat, size: nat, d: Row)
    requires d in Window(rows, from, size)
    ensures d in rows
  {
    var k :| 0 <= k < |Window(rows, from, size)| && Window(rows, from, size)[k] == d;
    assert rows[from + k] == d;
  }

  /** Narrowing a list without a search text shows exactly the devices of the list that pass the test;
      a search also finds the archived ones, and still nothing that the user may not view. */
  lemma NarrowedList(table: seq<Row>, u: User, o: Ordering, timeout: int, shares: seq<Share>, now: int,
                     searching: bool, narrowed: Row -> bool)
    requires UniqueIds(table) && !u.admin
    ensures forall d :: d in Selected(table, Narrowed(UserQuery(u, None, Any, o, timeout), searching, narrowed),
                                      shares, now)
                        <==> d in table && narrowed(d) && (searching || d.device.archivedAt.None?)
                             && CanView(u, d, shares, now)
  {
    var q := Narrowed(UserQuery(u, None, Any, o, timeout), searching, narrowed);
    SelectedIs(table, q, shares, now);
    forall d ensures Matches(d, q, shares, now)
                     <==> narrowed(d) && (searching || d.device.archivedAt.None?) && CanView(u, d, shares, now)
    {
      PermissionIsShare(u, d, shares, now);
    }
  }

  // ---- The order of a list, and its pages -------------------------------------------------------------

  /** Of two devices in a list, the one without a value comes last; values fall or rise as asked; and equal
      ones stand by their numbers. */
  lemma ListOrder(table: seq<Row>, q: Query, shares: seq<Share>, now: int, i: nat, j: nat)
    requires UniqueIds(table) && i < j < |Selected(table, q, shares, now)|
    ensures var rows := Selected(table, q, shares, now);
            var x, y := q.ordering.key(rows[i]), q.ordering.key(rows[j]);
            && (x.None? ==> y.None?)
            && (x.Some? && y.Some? ==> if q.ordering.descending then x.value >= y.value else x.value <= y.value)
            && (x == y ==> rows[i].id < rows[j].id)
  {
    SelectedIs(table, q, shares, now);
  }

  /** The page and size that count when a client asks for others. */
  lemma PagesClamped(table: seq<Row>, q: Query, shares: seq<Share>, page: int, size: int, now: int)
    ensures page < 1 ==>
              ListDevices(table, q, shares, page, size, now) == ListDevices(table, q, shares, 1, size, now)
    ensures size < 1 ==>
              ListDevices(table, q, shares, page, size, now) == ListDevices(table, q, shares, page, 1, now)
    ensures size > 200 ==>
              ListDevices(table, q, shares, page, size, now) == ListDevices(table, q, shares, page, 200, now)
  {
  }

  /** The devices of one page, by their places in the whole list. */
  lemma PageHolds(table: seq<Row>, q: Query, shares: seq<Share>, page: nat, size: nat, now: int, from: nat)
    requires page >= 1 && 1 <= size <= 200 && from == (page - 1) * size
    ensures var rows, listed := Selected(table, q, shares, now), ListDevices(table, q, shares, page, size, now);
            && listed.total == |rows|
            && |listed.items| == (if from >= |rows| then 0 else Min(size, |rows| - from))
            && forall k :: 0 <= k < |listed.items| ==> from + k < |rows| && listed.items[k] == rows[from + k]
  {
    PageIs(table, q, shares, page, size, now);
    WindowHolds(Selected(table, q, shares, now), from, size);
  }

  lemma WindowHolds(rows: seq<Row>, from: nat, size: nat)
    ensures var items := Window(rows, from, size);
            && |items| == (if from >= |rows| then 0 else Min(size, |rows| - from))
            && forall k :: 0 <= k < |items| ==> from + k < |rows| && items[k] == rows[from + k]
  {
  }
}
