/** Live device updates: the open connections, and who is sent a change. */
module Broadcast {
  import opened Common
  import opened Devices
  import opened Visibility

  /** A connection and the user who opened it; `socket` tells the web sockets apart. */
  datatype Connection = Connection(socket: nat, user: nat, admin: bool)

  function UserOf(c: Connection): User {
    User(c.user, c.admin, true)
  }

  /** What the session leaves behind for the task that sends the update. */
  datatype Snapshot = Snapshot(owner: Option<nat>, sharedWith: set<nat>)

  function SnapshotOf(d: Row, shares: seq<Share>, now: int): Snapshot {
    Snapshot(d.device.owner,
             set i | 0 <= i < |shares| && shares[i].device == d.id && IsActive(shares[i], now) :: shares[i].user)
  }

  predicate Recipient(c: Connection, s: Snapshot) {
    c.admin || s.owner == Some(c.user) || c.user in s.sharedWith
  }

  /** The connections still to be told, and those among them that cannot be reached. */
  function Reached(cs: seq<Connection>, s: Snapshot, broken: set<nat>): seq<nat> {
    if cs == [] then []
    else Reached(DropLast(cs), s, broken)
         + (if Recipient(Last(cs), s) && Last(cs).socket !in broken then [Last(cs).socket] else [])
  }

  /** All connections but those over any of these sockets. */
  function WithoutAll(cs: seq<Connection>, sockets: set<nat>): seq<Connection> {
    if cs == [] then [] else (if cs[0].socket in sockets then [] else [cs[0]]) + WithoutAll(cs[1..], sockets)
  }

  /** The sockets on which sending fails. */
  function Stale(cs: seq<Connection>, s: Snapshot, broken: set<nat>): set<nat> {
    set i | 0 <= i < |cs| && Recipient(cs[i], s) && cs[i].socket in broken :: cs[i].socket
  }

  lemma {:induction false} WithoutMore(cs: seq<Connection>, sockets: set<nat>, socket: nat)
    ensures WithoutAll(WithoutAll(cs, sockets), {socket}) == WithoutAll(cs, sockets + {socket})
  {
    if cs != [] {
      var none: seq<Connection>, rest := [], WithoutAll(cs[1..], sockets);
      WithoutMore(cs[1..], sockets, socket);
      assert none + rest == rest;
      assert ([cs[0]] + rest)[1..] == rest;
      assert none + WithoutAll(cs[1..], sockets + {socket}) == WithoutAll(cs[1..], sockets + {socket});
    }
  }

  lemma {:induction false} WithoutNobody(cs: seq<Connection>)
    ensures WithoutAll(cs, {}) == cs
  {
    if cs != [] {
      WithoutNobody(cs[1..]);
      assert [cs[0]] + cs[1..] == cs;
    }
  }

  /** `rest` is `all` without the connections over these sockets: the others, in their order. */
  ghost predicate OthersStay(all: seq<Connection>, rest: seq<Connection>, sockets: set<nat>) {
    exists at: seq<nat> :: Picks(all, rest, sockets, at)
  }

  /** `at` are the places, from front to back, of the connections over other sockets. */
  ghost predicate Picks(all: seq<Connection>, rest: seq<Connection>, sockets: set<nat>, at: seq<nat>) {
    && |at| == |rest| && (forall j, k :: 0 <= j < k < |at| ==> at[j] < at[k])
    && (forall k :: 0 <= k < |at| ==> at[k] < |all| && all[at[k]] == rest[k])
    && (forall i: nat :: i < |all| ==> (i in at <==> all[i].socket !in sockets))
  }

  lemma PicksNext(cs: seq<Connection>, i: nat, rest: seq<Connection>, sockets: set<nat>, at: seq<nat>)
    requires i < |cs| && Picks(cs[..i], rest, sockets, at)
    ensures cs[i].socket in sockets ==> Picks(cs[..i + 1], rest, sockets, at)
    ensures cs[i].socket !in sockets ==> Picks(cs[..i + 1], rest + [cs[i]], sockets, at + [i])
  {
    forall k: nat | k < i + 1 ensures k in at + [i] <==> k in at || k == i {}
  }

  lemma {:induction false} WithoutAllPicks(cs: seq<Connection>, n: nat, sockets: set<nat>) returns (at: seq<nat>)
    requires n <= |cs|
    ensures Picks(cs[..n], WithoutAll(cs[..n], sockets), sockets, at)
  {
    if n == 0 {
      at := [];
    } else {
      at := WithoutAllPicks(cs, n - 1, sockets);
      PicksNext(cs, n - 1, WithoutAll(cs[..n - 1], sockets), sockets, at);
      WithoutAllNext(cs, n - 1, sockets);
      if cs[n - 1].socket !in sockets { at := at + [n - 1]; }
    }
  }

  lemma WithoutAllSplit(a: seq<Connection>, b: seq<Connection>, sockets: set<nat>)
    ensures WithoutAll(a + b, sockets) == WithoutAll(a, sockets) + WithoutAll(b, sockets)
  {
    if a == [] {
      assert a + b == b;
    } else {
      assert (a + b)[1..] == a[1..] + b;
      WithoutAllSplit(a[1..], b, sockets);
    }
  }

  lemma WithoutAllNext(cs: seq<Connection>, i: nat, sockets: set<nat>)
    requires i < |cs|
    ensures WithoutAll(cs[..i + 1], sockets)
         == WithoutAll(cs[..i], sockets) + (if cs[i].socket in sockets then [] else [cs[i]])
  {
    assert cs[..i + 1] == cs[..i] + [cs[i]];
    WithoutAllSplit(cs[..i], [cs[i]], sockets);
  }

  /** What is left is all the others, each in its place. */
  lemma WithoutAllIs(cs: seq<Connection>, sockets: set<nat>)
    ensures OthersStay(cs, WithoutAll(cs, sockets), sockets)
  {
    var at := WithoutAllPicks(cs, |cs|, sockets);
    assert cs[..|cs|] == cs;
  }

  class DeviceConnectionManager {
    var connections: seq<Connection>

    constructor ()
      ensures connections == []
    {
      connections := [];
    }

    method Connect(socket: nat, user: User)
      modifies this
      ensures connections == old(connections) + [Connection(socket, user.id, user.admin)]
    {
      connections := connections + [Connection(socket, user.id, user.admin)];
    }

    method Disconnect(socket: nat)
      modifies this
      ensures OthersStay(old(connections), connections, {socket})
      ensures connections == WithoutAll(old(connections), {socket})
    {
      var left: seq<Connection> := [];
      for i := 0 to |connections|
        invariant connections == old(connections) && left == WithoutAll(connections[..i], {socket})
      {
        WithoutAllNext(connections, i, {socket});
        if connections[i].socket != socket { left := left + [connections[i]]; }
      }
      assert connections[..|connections|] == connections;
      WithoutAllIs(connections, {socket});
      connections := left;
    }

    /** Sends to everyone who may see the device, and closes the connections that fail. */
    method NotifyDeviceChange(s: Snapshot, broken: set<nat>) returns (sent: seq<nat>)
      modifies this
      ensures sent == Reached(old(connections), s, broken)
      ensures connections == WithoutAll(old(connections), Stale(old(connections), s, broken))
      ensures OthersStay(old(connections), connections, Stale(old(connections), s, broken))
    {
      var open := connections;
      sent := [];
      var stale: seq<nat> := [];
      var i := 0;
      while i < |open|
        invariant 0 <= i <= |open| && connections == old(connections)
        invariant sent == Reached(open[..i], s, broken)
        invariant forall k :: k in stale <==> k in Stale(open[..i], s, broken)
      {
        assert DropLast(open[..i + 1]) == open[..i] && Last(open[..i + 1]) == open[i];
        StaleNext(open, i, s, broken);
        if Recipient(open[i], s) {
          if open[i].socket in broken {
            stale := stale + [open[i].socket];
          } else {
            sent := sent + [open[i].socket];
          }
        }
        i := i + 1;
      }
      assert open[..i] == open;
      assert Elements(stale) == Stale(open, s, broken);
      WithoutAllIs(open, Stale(open, s, broken));
      DisconnectAll(stale);
    }

    /** Closes these connections one by one. */
    method DisconnectAll(stale: seq<nat>)
      modifies this
      ensures connections == WithoutAll(old(connections), Elements(stale))
    {
      ghost var open := connections;
      WithoutNobody(open);
      assert Elements(stale[..0]) == {};
      for k := 0 to |stale|
        invariant connections == WithoutAll(open, Elements(stale[..k]))
      {
        WithoutMore(open, Elements(stale[..k]), stale[k]);
        ElementsAppend(stale[..k], stale[k]);
        assert stale[..k] + [stale[k]] == stale[..k + 1];
        Disconnect(stale[k]);
      }
      assert stale[..|stale|] == stale;
    }
  }

  lemma StaleNext(cs: seq<Connection>, i: nat, s: Snapshot, broken: set<nat>)
    requires i < |cs|
    ensures Stale(cs[..i + 1], s, broken)
         == Stale(cs[..i], s, broken) + (if Recipient(cs[i], s) && cs[i].socket in broken then {cs[i].socket} else {})
  {
    var a, b := cs[..i], cs[..i + 1];
    assert forall k :: 0 <= k < i ==> b[k] == a[k];
    assert b[i] == cs[i];
  }

  // ---- Who is told ---------------------------------------------------------------------

  lemma {:induction false} ReachedIs(cs: seq<Connection>, s: Snapshot, broken: set<nat>)
    ensures forall k :: k in Reached(cs, s, broken) <==>
              exists i :: 0 <= i < |cs| && cs[i].socket == k && Recipient(cs[i], s) && k !in broken
  {
    if cs != [] {
      var init, last := DropLast(cs), Last(cs);
      ReachedIs(init, s, broken);
      forall k ensures k in Reached(cs, s, broken) <==>
                         exists i :: 0 <= i < |cs| && cs[i].socket == k && Recipient(cs[i], s) && k !in broken {
        if k in Reached(init, s, broken) {
          var i :| 0 <= i < |init| && init[i].socket == k && Recipient(init[i], s) && k !in broken;
          assert cs[i] == init[i];
        }
        if i :| 0 <= i < |cs| && cs[i].socket == k && Recipient(cs[i], s) && k !in broken {
          if i < |init| { assert init[i] == cs[i]; }
        }
      }
    }
  }

  /** For an approved device the recipients of an update are the users whom the check lets view it. */
  lemma RecipientIsCheck(d: Row, shares: seq<Share>, now: int, c: Connection)
    requires d.device.approval == Approved
    ensures Recipient(c, SnapshotOf(d, shares, now)) <==> CanView(UserOf(c), d, shares, now)
  {
    PermissionIsShare(UserOf(c), d, shares, now);
    SharedSnapshot(d, shares, now, c.user);
  }

  lemma SharedSnapshot(d: Row, shares: seq<Share>, now: int, user: nat)
    ensures user in SnapshotOf(d, shares, now).sharedWith <==> SharedWith(d, user, shares, now)
  {
  }

  /** Main result: the two tests agree for every connection if and only if the device is approved,
      or belongs to nobody and is shared with nobody. */
  lemma AgreeIff(d: Row, shares: seq<Share>, now: int)
    ensures (forall c: Connection :: Recipient(c, SnapshotOf(d, shares, now)) <==> CanView(UserOf(c), d, shares, now))
       <==> d.device.approval == Approved || (d.device.owner.None? && SnapshotOf(d, shares, now).sharedWith == {})
  {
    var s := SnapshotOf(d, shares, now);
    if d.device.approval == Approved {
      forall c: Connection ensures Recipient(c, s) <==> CanView(UserOf(c), d, shares, now) {
        RecipientIsCheck(d, shares, now, c);
      }
    } else if d.device.owner.Some? {
      var c := Connection(0, d.device.owner.value, false);
      assert Recipient(c, s) && !CanView(UserOf(c), d, shares, now);
    } else if u :| u in s.sharedWith {
      var c := Connection(0, u, false);
      assert Recipient(c, s) && !CanView(UserOf(c), d, shares, now);
    }
  }

  /** So an update of an approved device reaches exactly the open, working connections of the users
      who may view it. */
  lemma ToldWhoMayView(cs: seq<Connection>, d: Row, shares: seq<Share>, now: int, broken: set<nat>)
    requires d.device.approval == Approved
    ensures forall k :: k in Reached(cs, SnapshotOf(d, shares, now), broken) <==>
              exists i :: 0 <= i < |cs| && cs[i].socket == k && k !in broken && CanView(UserOf(cs[i]), d, shares, now)
  {
    ReachedIs(cs, SnapshotOf(d, shares, now), broken);
    forall i | 0 <= i < |cs|
      ensures Recipient(cs[i], SnapshotOf(d, shares, now)) <==> CanView(UserOf(cs[i]), d, shares, now)
    {
      RecipientIsCheck(d, shares, now, cs[i]);
    }
  }
}
