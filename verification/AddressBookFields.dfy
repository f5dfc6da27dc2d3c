/** What one request leaves in the book, told from the request and the book before it: which peers and
    tags there are, and what each of them holds. */
module AddressBookFields {
  import opened Common
  import opened Text
  import opened TagColors
  import opened AddressBook
  import opened AddressBookRuns
  import opened AddressBookPush
  import opened AddressBookContent

  // ---- Looking a book up ---------------------------------------------------------------------

  /** The peer under an id, with the names of its tags. */
  ghost function PeerAt(b: Book, rid: string): Option<Peer> {
    if e :| e in b.entries && b.entries[e].rid == rid then Some(PeerOf(b, b.entries[e])) else None
  }

  ghost function ColorAt(b: Book, name: string): Option<int> {
    if t :| t in b.tags && b.tags[t].name == name then Some(b.tags[t].color) else None
  }

  ghost function Column(p: Peer, f: Field): Option<string> {
    if f in p.fields then Some(p.fields[f]) else None
  }

  /** The widths of the columns. */
  function Width(f: Field): nat {
    match f
    case Username => 150
    case Platform => 50
    case Note => 500
    case _ => 255
  }

  const TAG_WIDTH: nat := 100
  const ID_WIDTH: nat := 64

  /** The id that a request names. */
  ghost predicate NamesId(id: Option<string>, rid: string) {
    id.Some? && IsCore(id.value, rid) && 1 <= |rid| <= ID_WIDTH
  }

  /** One of these names, without the white space around it and cut to the width, is `n`. */
  ghost predicate NamesTag(values: seq<Option<string>>, n: string) {
    exists v :: v in values && Keeps(v, TAG_WIDTH, Some(n))
  }

  ghost predicate NamesTags(data: PeerData, n: string) {
    data.tags.Some? && NamesTag(data.tags.value, n)
  }

  // ---- What a request about one peer leaves -----------------------------------------------------

  /** A column that is sent keeps what is sent, but the client's hash only in a personal book; one that is
      not sent stays as it was. */
  ghost predicate ColumnFollows(personal: bool, f: Field, sent: map<Field, Option<string>>, was: Peer, now: Peer) {
    if f in sent && (f == Hash ==> personal) then Keeps(sent[f], Width(f), Column(now, f))
    else Column(now, f) == Column(was, f)
  }

  /** The tags that are sent replace those the peer had. */
  ghost predicate TagsFollow(data: PeerData, was: Peer, now: Peer) {
    if data.tags.Some? then forall n :: n in now.tags <==> NamesTags(data, n) else now.tags == was.tags
  }

  ghost function Unset(rid: string): Peer {
    Peer(rid, map[], {})
  }

  ghost function Known(b: Book, rid: string): Peer {
    if PeerAt(b, rid).Some? then PeerAt(b, rid).value else Unset(rid)
  }

  ghost predicate PeerFollows(b: Book, rid: string, data: PeerData, c: Book) {
    && PeerAt(c, rid).Some?
    && (forall f :: ColumnFollows(b.personal, f, data.fields, Known(b, rid), PeerAt(c, rid).value))
    && TagsFollow(data, Known(b, rid), PeerAt(c, rid).value)
  }

  /** Tags that are named for the first time are made, in the default colour; no other tag changes. */
  ghost predicate TagsMade(b: Book, data: PeerData, c: Book) {
    forall n :: ColorAt(c, n) ==
      if ColorAt(b, n).None? && NamesTags(data, n) then Some(0xFF64748B) else ColorAt(b, n)
  }

  ghost predicate OthersAsWere(b: Book, rid: string, c: Book) {
    c.personal == b.personal && forall other :: other != rid ==> PeerAt(c, other) == PeerAt(b, other)
  }

  /** What a successful request about this peer leaves. */
  ghost predicate Leaves(b: Book, rid: string, data: PeerData, c: Book) {
    PeerFollows(b, rid, data, c) && TagsMade(b, data, c) && OthersAsWere(b, rid, c)
  }

  // ---- Proofs --------------------------------------------------------------------------------------

  lemma TheEntry(b: Book, e: nat)
    requires UniqueRids(b) && e in b.entries
    ensures PeerAt(b, b.entries[e].rid) == Some(PeerOf(b, b.entries[e]))
  {
  }

  lemma NoEntry(b: Book, rid: string)
    ensures PeerAt(b, rid).None? <==> rid !in Rids(b)
  {
  }

  lemma TheTag(b: Book, t: nat)
    requires UniqueNames(b) && t in b.tags
    ensures ColorAt(b, b.tags[t].name) == Some(b.tags[t].color)
  {
  }

  lemma NoTag(b: Book, n: string)
    ensures ColorAt(b, n).None? <==> n !in TagNames(b)
  {
  }

  lemma IdNamed(id: Option<string>, rid: string)
    ensures NamesId(id, rid) <==> CleanId(id) == Some(rid)
  {
    if id.Some? {
      TrimIsCore(id.value);
      if IsCore(id.value, rid) { CoreIsTrim(id.value, rid); }
    }
  }

  lemma {:induction false} TagNamed(values: seq<Option<string>>, n: string)
    ensures NamesTag(values, n) <==> n in CleanTagNames(values)
  {
    if values != [] {
      var init, v := values[..|values| - 1], values[|values| - 1];
      TagNamed(init, n);
      ClipKeeps(v, TAG_WIDTH, Some(n));
      assert values == init + [v];
    }
  }

  lemma PeerTagNamed(data: PeerData, n: string)
    ensures NamesTags(data, n) <==> n in PeerTagNames(data)
  {
    if data.tags.Some? { TagNamed(data.tags.value, n); }
  }

  lemma ColumnsFollow(b: Book, e: Entry, data: PeerData, f: Field)
    ensures ColumnFollows(b.personal, f, data.fields, PeerOf(b, e), PeerOf(b, Updated(b, e, data)))
  {
    ApplyFieldsGet(b.personal, e.fields, data.fields, f);
    if f in data.fields { ClipKeeps(data.fields[f], Width(f), Column(PeerOf(b, Updated(b, e, data)), f)); }
  }

  lemma LinksFollow(b: Book, e: Entry, data: PeerData)
    requires forall n :: NamesTags(data, n) ==> n in TagNames(b)
    ensures TagsFollow(data, PeerOf(b, e), PeerOf(b, Updated(b, e, data)))
  {
    if data.tags.Some? {
      ChangedSame(b, e, data);
      SameNames(b);
      forall n ensures n in PeerOf(b, Updated(b, e, data)).tags <==> NamesTags(data, n) { PeerTagNamed(data, n); }
    }
  }

  /** Updating or inserting the row, when the tags are there. */
  lemma UpsertFollows(b: Book, rid: string, data: PeerData)
    requires Consistent(b) && forall n :: NamesTags(data, n) ==> n in TagNames(b)
    ensures PeerFollows(b, rid, data, Upsert(b, rid, data)) && OthersAsWere(b, rid, Upsert(b, rid, data))
    ensures Upsert(b, rid, data).tags == b.tags
  {
    var c := Upsert(b, rid, data);
    UpsertConsistent(b, rid, data);
    UpsertRids(b, rid, data);
    forall x: Entry ensures PeerOf(c, x) == PeerOf(b, x) {}
    var was := if rid in Rids(b) then TheRow(b, rid) else Entry(rid, map[], {});
    var e := if rid in Rids(b) then RowOfId(b, rid) else b.nextEntry;
    assert c.entries[e] == Updated(b, was, data);
    TheEntry(c, e);
    NoEntry(b, rid);
    if rid in Rids(b) { TheEntry(b, e); }
    assert PeerOf(b, was) == Known(b, rid);
    forall f ensures ColumnFollows(b.personal, f, data.fields, Known(b, rid), PeerAt(c, rid).value) {
      ColumnsFollow(b, was, data, f);
    }
    LinksFollow(b, was, data);
    forall other | other != rid ensures PeerAt(c, other) == PeerAt(b, other) { UpsertOthers(b, rid, data, other); }
  }

  ghost function RowOfId(b: Book, rid: string): nat
    requires rid in Rids(b)
    ensures RowOfId(b, rid) in b.entries && b.entries[RowOfId(b, rid)].rid == rid
  {
    var e :| e in b.entries && b.entries[e].rid == rid;
    e
  }

  ghost function TheRow(b: Book, rid: string): Entry
    requires rid in Rids(b)
  {
    b.entries[RowOfId(b, rid)]
  }

  lemma UpsertOthers(b: Book, rid: string, data: PeerData, other: string)
    requires Consistent(b) && other != rid
    ensures PeerAt(Upsert(b, rid, data), other) == PeerAt(b, other)
  {
    var c := Upsert(b, rid, data);
    UpsertConsistent(b, rid, data);
    UpsertRids(b, rid, data);
    NoEntry(b, other);
    NoEntry(c, other);
    if other in Rids(b) {
      var e := RowOfId(b, other);
      assert e in c.entries && c.entries[e] == b.entries[e];
      TheEntry(b, e);
      TheEntry(c, e);
      assert PeerOf(c, b.entries[e]) == PeerOf(b, b.entries[e]);
    }
  }

  lemma EnsureTagColor(b: Book, name: string, color: int, n: string)
    requires Consistent(b)
    ensures ColorAt(EnsureTag(b, name, color), n)
         == if n == name && ColorAt(b, n).None? then Some(color) else ColorAt(b, n)
  {
    var c := EnsureTag(b, name, color);
    EnsureTagFacts(b, name, color);
    NoTag(b, n);
    NoTag(c, n);
    if n in TagNames(c) {
      var t :| t in c.tags && c.tags[t].name == n;
      TheTag(c, t);
      if t in b.tags { TheTag(b, t); }
    }
  }

  lemma {:induction false} EnsureTagsColor(b: Book, names: seq<string>, colors: map<string, int>, n: string)
    requires Consistent(b)
    ensures ColorAt(EnsureTags(b, names, colors), n)
         == if n in names && ColorAt(b, n).None? then Some(ColorOf(colors, n)) else ColorAt(b, n)
    decreases names
  {
    if names != [] {
      EnsureTagsColor(b, DropLast(names), colors, n);
      EnsureTagsFacts(b, DropLast(names), colors);
      EnsureTagColor(EnsureTags(b, DropLast(names), colors), Last(names), ColorOf(colors, Last(names)), n);
      assert names == DropLast(names) + [Last(names)];
    }
  }

  lemma EnsurePeers(b: Book, names: seq<string>, colors: map<string, int>, rid: string)
    requires Consistent(b)
    ensures PeerAt(EnsureTags(b, names, colors), rid) == PeerAt(b, rid)
  {
    var c := EnsureTags(b, names, colors);
    EnsureTagsFacts(b, names, colors);
    NoEntry(b, rid);
    NoEntry(c, rid);
    if rid in Rids(b) {
      var e := RowOfId(b, rid);
      TheEntry(b, e);
      TheEntry(c, e);
      assert LinkNames(c, b.entries[e].tags) == LinkNames(b, b.entries[e].tags);
    }
  }

  lemma SameColors(b: Book, c: Book, n: string)
    requires UniqueNames(b) && c.tags == b.tags
    ensures ColorAt(c, n) == ColorAt(b, n)
  {
    NoTag(b, n);
    NoTag(c, n);
    if n in TagNames(b) {
      var t :| t in b.tags && b.tags[t].name == n;
      TheTag(b, t);
      TheTag(c, t);
    }
  }

  lemma SavedPeer(b: Book, rid: string, data: PeerData)
    requires Consistent(b)
    ensures Leaves(b, rid, data, Upsert(EnsureTags(b, PeerTagNames(data), map[]), rid, data))
  {
    var names := PeerTagNames(data);
    var b1 := EnsureTags(b, names, map[]);
    var c := Upsert(b1, rid, data);
    EnsureTagsFacts(b, names, map[]);
    forall n | NamesTags(data, n) ensures n in TagNames(b1) { PeerTagNamed(data, n); }
    UpsertFollows(b1, rid, data);
    forall r ensures PeerAt(b1, r) == PeerAt(b, r) { EnsurePeers(b, names, map[], r); }
    forall n ensures ColorAt(c, n) ==
                       if ColorAt(b, n).None? && NamesTags(data, n) then Some(0xFF64748B) else ColorAt(b, n)
    {
      EnsureTagsColor(b, names, map[], n);
      PeerTagNamed(data, n);
      SameColors(b1, c, n);
    }
  }

  // ---- Results ---------------------------------------------------------------------------------------

  /** Main result. Adding a peer succeeds exactly when it names an id, and then the peer under that id
      holds every value sent, in its column, and nothing else is changed. */
  lemma AddPeerLeaves(b: Book, data: PeerData)
    requires Consistent(b)
    ensures match AddPeer(b, data)
            case Ok(c) => exists rid :: NamesId(data.id, rid) && Leaves(b, rid, data, c)
            case Err(e) => e == Invalid && forall rid :: !NamesId(data.id, rid)
  {
    if CleanId(data.id).Some? {
      var rid := CleanId(data.id).value;
      IdNamed(data.id, rid);
      SavedPeer(b, rid, data);
    } else {
      forall rid ensures !NamesId(data.id, rid) { IdNamed(data.id, rid); }
    }
  }

  /** The same for updating one, which is refused for an id that is not in the book. */
  lemma UpdatePeerLeaves(b: Book, data: PeerData)
    requires Consistent(b)
    ensures match UpdatePeer(b, data)
            case Ok(c) => exists rid :: NamesId(data.id, rid) && PeerAt(b, rid).Some? && Leaves(b, rid, data, c)
            case Err(Invalid) => forall rid :: !NamesId(data.id, rid)
            case Err(e) => e == NotFound && exists rid :: NamesId(data.id, rid) && PeerAt(b, rid).None?
  {
    if CleanId(data.id).Some? {
      var rid := CleanId(data.id).value;
      IdNamed(data.id, rid);
      NoEntry(b, rid);
      if rid in Rids(b) {
        EnsureTagsFacts(b, PeerTagNames(data), map[]);
        SavedPeer(b, rid, data);
      }
    } else {
      forall rid ensures !NamesId(data.id, rid) { IdNamed(data.id, rid); }
    }
  }

  // ---- Deleting peers ----------------------------------------------------------------------------------

  /** After peers or tags were taken out: what is left of a row is what the later book makes of it. */
  lemma KeptPeer(b: Book, kept: iset<string>, rid: string)
    requires UniqueRids(b)
    ensures PeerAt(KeepEntries(b, kept), rid) == if rid in kept then PeerAt(b, rid) else None
  {
    var c := KeepEntries(b, kept);
    KeepEntriesRids(b, kept);
    NoEntry(b, rid);
    NoEntry(c, rid);
    if rid in Rids(c) {
      var e := RowOfId(c, rid);
      TheEntry(b, e);
      TheEntry(c, e);
      assert PeerOf(c, b.entries[e]) == PeerOf(b, b.entries[e]);
    }
  }

  /** Deleting peers takes exactly the named ones. */
  lemma DeletePeersLeaves(b: Book, ids: seq<Option<string>>)
    requires Consistent(b)
    ensures var c := DeletePeers(b, ids);
            && (forall rid :: PeerAt(c, rid) == if Some(rid) in ids then None else PeerAt(b, rid))
            && (forall n :: ColorAt(c, n) == ColorAt(b, n))
  {
    var kept := iset rid: string | Some(rid) !in ids;
    forall rid ensures PeerAt(KeepEntries(b, kept), rid) == if rid in kept then PeerAt(b, rid) else None {
      KeptPeer(b, kept, rid);
    }
    forall n ensures ColorAt(KeepEntries(b, kept), n) == ColorAt(b, n) { SameColors(b, KeepEntries(b, kept), n); }
  }

  // ---- Tags --------------------------------------------------------------------------------------------

  /** A tag name that is sent. */
  ghost predicate NamesOneTag(name: Option<string>, n: string) {
    Keeps(name, TAG_WIDTH, Some(n))
  }

  lemma OneTagNamed(name: Option<string>, n: string)
    ensures NamesOneTag(name, n) <==> CleanTagName(name) == Some(n)
  {
    ClipKeeps(name, TAG_WIDTH, Some(n));
  }

  lemma PaintedColor(b: Book, colors: map<string, int>, n: string)
    requires UniqueNames(b)
    ensures ColorAt(Recolor(b, colors), n)
         == if ColorAt(b, n).Some? && n in colors then Some(colors[n]) else ColorAt(b, n)
  {
    var c := Recolor(b, colors);
    RecolorFacts(b, colors);
    NoTag(b, n);
    NoTag(c, n);
    if n in TagNames(b) {
      var t :| t in b.tags && b.tags[t].name == n;
      TheTag(b, t);
      assert c.tags[t].name == n;
      assert forall u, v :: u in c.tags && v in c.tags && c.tags[u].name == c.tags[v].name ==> u == v;
      TheTag(c, t);
    }
  }

  /** The entries are the same rows, and every link leads to a tag of the same name. */
  lemma SamePeer(b: Book, c: Book, rid: string)
    requires UniqueRids(b) && LinksLive(b) && c.entries == b.entries
    requires forall t :: t in b.tags ==> t in c.tags && c.tags[t].name == b.tags[t].name
    ensures PeerAt(c, rid) == PeerAt(b, rid)
  {
    NoEntry(b, rid);
    NoEntry(c, rid);
    if rid in Rids(b) {
      var e := RowOfId(b, rid);
      TheEntry(b, e);
      TheEntry(c, e);
      assert LinkNames(c, b.entries[e].tags) == LinkNames(b, b.entries[e].tags);
    }
  }

  ghost predicate PeersAsWere(b: Book, c: Book) {
    forall rid :: PeerAt(c, rid) == PeerAt(b, rid)
  }

  ghost predicate OneColor(b: Book, n: string, color: int, c: Book) {
    forall m :: ColorAt(c, m) == if m == n then Some(color) else ColorAt(b, m)
  }

  /** Adding a tag gives the named tag this colour, whether it was there or not, and touches nothing else. */
  lemma AddTagLeaves(b: Book, name: Option<string>, color: RawColor)
    requires Consistent(b)
    ensures match AddTag(b, name, color)
            case Ok(c) =>
              PeersAsWere(b, c) && exists n :: NamesOneTag(name, n) && OneColor(b, n, NormalizeColor(color), c)
            case Err(e) => e == Invalid && forall n :: !NamesOneTag(name, n)
  {
    if CleanTagName(name).Some? {
      var n, c := CleanTagName(name).value, NormalizeColor(color);
      var made := EnsureTag(b, n, c);
      var done := Recolor(made, map[n := c]);
      OneTagNamed(name, n);
      EnsureTagFacts(b, n, c);
      forall m ensures ColorAt(done, m) == if m == n then Some(c) else ColorAt(b, m) {
        EnsureTagColor(b, n, c, m);
        PaintedColor(made, map[n := c], m);
        NoTag(made, m);
      }
      forall rid ensures PeerAt(done, rid) == PeerAt(b, rid) { SamePeer(b, done, rid); }
    } else {
      forall n ensures !NamesOneTag(name, n) { OneTagNamed(name, n); }
    }
  }

  /** Recolouring is for tags that are there. */
  lemma SetTagColorLeaves(b: Book, name: Option<string>, color: RawColor)
    requires Consistent(b)
    ensures match SetTagColor(b, name, color)
            case Ok(c) =>
              && PeersAsWere(b, c)
              && exists n :: NamesOneTag(name, n) && ColorAt(b, n).Some? && OneColor(b, n, NormalizeColor(color), c)
            case Err(Invalid) => forall n :: !NamesOneTag(name, n)
            case Err(e) => e == NotFound && exists n :: NamesOneTag(name, n) && ColorAt(b, n).None?
  {
    if CleanTagName(name).Some? {
      var n, c := CleanTagName(name).value, NormalizeColor(color);
      var done := Recolor(b, map[n := c]);
      OneTagNamed(name, n);
      NoTag(b, n);
      forall m ensures n in TagNames(b) ==> ColorAt(done, m) == if m == n then Some(c) else ColorAt(b, m) {
        PaintedColor(b, map[n := c], m);
      }
      forall rid ensures PeerAt(done, rid) == PeerAt(b, rid) { SamePeer(b, done, rid); }
    } else {
      forall n ensures !NamesOneTag(name, n) { OneTagNamed(name, n); }
    }
  }

  /** The peer has the new name among its tags instead of the old one. */
  ghost predicate PeerRenamed(was: Option<Peer>, now: Option<Peer>, from: string, to: string) {
    match (was, now)
    case (None, None) => true
    case (Some(p), Some(q)) =>
      && q.fields == p.fields
      && forall n :: n in q.tags <==> if n == to then from in p.tags else n != from && n in p.tags
    case _ => false
  }

  /** What tags and peers are after one tag took another name. */
  ghost predicate RenamedFrom(b: Book, from: string, to: string, c: Book) {
    && (forall m :: ColorAt(c, m) == if m == to then ColorAt(b, from) else if m == from then None else ColorAt(b, m))
    && (forall rid :: PeerRenamed(PeerAt(b, rid), PeerAt(c, rid), from, to))
  }

  lemma RenamedColor(b: Book, from: Option<string>, to: Option<string>, m: string)
    requires Consistent(b) && RenameTag(b, from, to).Ok?
    ensures var c, f, n := RenameTag(b, from, to).value, CleanTagName(from).value, CleanTagName(to).value;
            ColorAt(c, m) == if m == n then ColorAt(b, f) else if m == f then None else ColorAt(b, m)
  {
    var c, f, n := RenameTag(b, from, to).value, CleanTagName(from).value, CleanTagName(to).value;
    RenameConsistent(b, from, to);
    NoTag(c, m);
    NoTag(b, m);
    var row :| row in b.tags && b.tags[row].name == f;
    TheTag(b, row);
    TheTag(c, row);
    if m != n && m != f && m in TagNames(b) {
      var t :| t in b.tags && b.tags[t].name == m;
      TheTag(b, t);
      TheTag(c, t);
    }
    if m in TagNames(c) {
      var t :| t in c.tags && c.tags[t].name == m;
      TheTag(c, t);
      if m != n && m != f { assert b.tags[t].name == m; }
    }
  }

  lemma RenamedAt(b: Book, from: Option<string>, to: Option<string>, rid: string)
    requires Consistent(b) && RenameTag(b, from, to).Ok?
    ensures var c, f, n := RenameTag(b, from, to).value, CleanTagName(from).value, CleanTagName(to).value;
            && (PeerAt(c, rid).Some? <==> PeerAt(b, rid).Some?)
            && (PeerAt(b, rid).Some? ==> PeerAt(c, rid).value == RenamedPeer(PeerAt(b, rid).value, f, n))
  {
    var c, f, n := RenameTag(b, from, to).value, CleanTagName(from).value, CleanTagName(to).value;
    NoEntry(b, rid);
    NoEntry(c, rid);
    if rid in Rids(b) {
      var e := RowOfId(b, rid);
      TheEntry(b, e);
      TheEntry(c, e);
      assert forall t :: t in b.tags ==> c.tags[t] == RenamedRow(b.tags[t], f, n);
      RenamedLinks(b, c, b.entries[e].tags, f, n);
    }
  }

  lemma LinkedNames(b: Book, rid: string)
    requires Consistent(b) && PeerAt(b, rid).Some?
    ensures PeerAt(b, rid).value.tags <= TagNames(b)
  {
    NoEntry(b, rid);
    TheEntry(b, RowOfId(b, rid));
  }

  /** Renaming moves one tag, with its colour and its links, to a name that no other tag has. */
  lemma RenameTagLeaves(b: Book, from: Option<string>, to: Option<string>)
    requires Consistent(b)
    ensures match RenameTag(b, from, to)
            case Ok(c) =>
              exists f, n :: NamesOneTag(from, f) && NamesOneTag(to, n) && ColorAt(b, f).Some?
                             && (n != f ==> ColorAt(b, n).None?) && RenamedFrom(b, f, n, c)
            case Err(Invalid) => forall f, n :: !(NamesOneTag(from, f) && NamesOneTag(to, n))
            case Err(NotFound) => exists f :: NamesOneTag(from, f) && ColorAt(b, f).None?
            case Err(e) =>
              e == Conflict && exists f, n :: NamesOneTag(from, f) && NamesOneTag(to, n) && n != f
                                              && ColorAt(b, f).Some? && ColorAt(b, n).Some?
  {
    var from', to' := CleanTagName(from), CleanTagName(to);
    forall n ensures NamesOneTag(from, n) <==> from' == Some(n) { OneTagNamed(from, n); }
    forall n ensures NamesOneTag(to, n) <==> to' == Some(n) { OneTagNamed(to, n); }
    if from'.Some? && to'.Some? {
      NoTag(b, from'.value);
      NoTag(b, to'.value);
      if RenameTag(b, from, to).Ok? { RenameTagMoves(b, from, to); }
    }
  }

  lemma PeerIsRenamed(p: Peer, from: string, to: string)
    requires to != from ==> to !in p.tags
    ensures PeerRenamed(Some(p), Some(RenamedPeer(p, from, to)), from, to)
  {
    var q := RenamedPeer(p, from, to);
    forall n ensures n in q.tags <==> if n == to then from in p.tags else n != from && n in p.tags {
      if n in p.tags { assert RenamedName(n, from, to) in q.tags; }
      if from in p.tags { assert RenamedName(from, from, to) in q.tags; }
    }
  }

  lemma PeerMoves(b: Book, from: Option<string>, to: Option<string>, rid: string)
    requires Consistent(b) && RenameTag(b, from, to).Ok?
    ensures PeerRenamed(PeerAt(b, rid), PeerAt(RenameTag(b, from, to).value, rid),
                        CleanTagName(from).value, CleanTagName(to).value)
  {
    RenamedAt(b, from, to, rid);
    if PeerAt(b, rid).Some? {
      LinkedNames(b, rid);
      PeerIsRenamed(PeerAt(b, rid).value, CleanTagName(from).value, CleanTagName(to).value);
    }
  }

  lemma RenameTagMoves(b: Book, from: Option<string>, to: Option<string>)
    requires Consistent(b) && RenameTag(b, from, to).Ok?
    ensures RenamedFrom(b, CleanTagName(from).value, CleanTagName(to).value, RenameTag(b, from, to).value)
  {
    var c, f, n := RenameTag(b, from, to).value, CleanTagName(from).value, CleanTagName(to).value;
    forall m ensures ColorAt(c, m) == if m == n then ColorAt(b, f) else if m == f then None else ColorAt(b, m) {
      RenamedColor(b, from, to, m);
    }
    forall rid ensures PeerRenamed(PeerAt(b, rid), PeerAt(c, rid), f, n) { PeerMoves(b, from, to, rid); }
  }

  lemma CutColor(b: Book, kept: iset<string>, n: string)
    requires UniqueNames(b)
    ensures ColorAt(KeepTags(b, kept), n) == if n in kept then ColorAt(b, n) else None
  {
    var c := KeepTags(b, kept);
    KeepTagsNames(b, kept);
    NoTag(b, n);
    NoTag(c, n);
    if n in TagNames(c) {
      var t :| t in c.tags && c.tags[t].name == n;
      TheTag(c, t);
      TheTag(b, t);
    }
  }

  lemma CutPeer(b: Book, kept: iset<string>, rid: string)
    requires UniqueRids(b)
    ensures var c := KeepTags(b, kept);
            && (PeerAt(c, rid).Some? <==> PeerAt(b, rid).Some?)
            && (PeerAt(b, rid).Some? ==>
                  PeerAt(c, rid).value == PeerAt(b, rid).value.(tags := Only(PeerAt(b, rid).value.tags, kept)))
  {
    var c := KeepTags(b, kept);
    KeepTagsRids(b, kept);
    NoEntry(b, rid);
    NoEntry(c, rid);
    if rid in Rids(b) {
      var e := RowOfId(b, rid);
      TheEntry(b, e);
      TheEntry(c, e);
      LinksKept(b, b.entries[e].tags, kept);
    }
  }

  /** Deleting tags takes exactly the named ones, and every link to them. */
  lemma DeleteTagsLeaves(b: Book, names: seq<Option<string>>)
    requires Consistent(b)
    ensures var c := DeleteTags(b, names);
            && (forall n :: ColorAt(c, n) == if NamesTag(names, n) then None else ColorAt(b, n))
            && (forall rid :: PeerAt(c, rid).Some? <==> PeerAt(b, rid).Some?)
            && (forall rid :: PeerAt(b, rid).Some? ==>
                  && PeerAt(c, rid).value.fields == PeerAt(b, rid).value.fields
                  && forall n :: n in PeerAt(c, rid).value.tags
                                 <==> n in PeerAt(b, rid).value.tags && !NamesTag(names, n))
  {
    var kept := iset n: string | n !in CleanTagNames(names);
    var c := KeepTags(b, kept);
    forall n ensures NamesTag(names, n) <==> n in CleanTagNames(names) { TagNamed(names, n); }
    forall n ensures ColorAt(c, n) == if n in kept then ColorAt(b, n) else None { CutColor(b, kept, n); }
    forall rid
      ensures PeerAt(c, rid).Some? <==> PeerAt(b, rid).Some?
      ensures PeerAt(b, rid).Some? ==>
                PeerAt(c, rid).value == PeerAt(b, rid).value.(tags := Only(PeerAt(b, rid).value.tags, kept))
    {
      CutPeer(b, kept, rid);
    }
  }

  // ---- The whole-list push -----------------------------------------------------------------------------

  /** The last pushed peer with this id. */
  ghost function LastPushed(entries: seq<PeerData>, rid: string): Option<PeerData> {
    if entries == [] then None
    else if NamesId(Last(entries).id, rid) then Some(Last(entries))
    else LastPushed(DropLast(entries), rid)
  }

  ghost function SentValue(data: PeerData, f: Field): Option<string> {
    if f in data.fields then data.fields[f] else None
  }

  /** A push sets every column but the note, which it does not know, and in a shared book the hash. */
  ghost predicate PushFollows(personal: bool, data: PeerData, was: Peer, now: Peer) {
    && (forall f :: if f == Note || (f == Hash && !personal) then Column(now, f) == Column(was, f)
                    else Keeps(SentValue(data, f), Width(f), Column(now, f)))
    && (forall n :: n in now.tags <==> NamesTags(data, n))
  }

  /** What the pushed peers make of the one under this id. */
  ghost predicate PushedAt(b: Book, entries: seq<PeerData>, rid: string, now: Option<Peer>) {
    match LastPushed(entries, rid)
    case None => now.None?
    case Some(data) => now.Some? && PushFollows(b.personal, data, Known(b, rid), now.value)
  }

  ghost predicate Mentioned(push: Push, n: string) {
    NamesTag(push.tagNames, n) || exists d :: d in push.entries && NamesTags(d, n)
  }

  lemma {:induction false} WantedNamed(names: seq<string>, entries: seq<PeerData>, n: string)
    ensures n in WantedTags(names, entries) <==> n in names || exists d :: d in entries && n in PeerTagNames(d)
  {
    if entries != [] {
      var init, d := DropLast(entries), Last(entries);
      WantedNamed(names, init, n);
      AddNamesCovers(WantedTags(names, init), PeerTagNames(d));
      assert entries == init + [d];
    }
  }

  lemma MentionedIsWanted(push: Push, n: string)
    ensures Mentioned(push, n) <==> n in PushWanted(push)
  {
    WantedNamed(CleanTagNames(push.tagNames), push.entries, n);
    TagNamed(push.tagNames, n);
    forall d ensures NamesTags(d, n) <==> n in PeerTagNames(d) { PeerTagNamed(d, n); }
  }

  /** The five columns of a push, as a request about one peer sends them. */
  lemma LegacyFollows(personal: bool, data: PeerData, was: Peer, now: Peer)
    requires forall f :: ColumnFollows(personal, f, LegacyData(data).fields, was, now)
    requires TagsFollow(LegacyData(data), was, now)
    ensures PushFollows(personal, data, was, now)
  {
    var full := LegacyData(data);
    forall f ensures if f == Note || (f == Hash && !personal) then Column(now, f) == Column(was, f)
                     else Keeps(SentValue(data, f), Width(f), Column(now, f))
    {
      assert ColumnFollows(personal, f, full.fields, was, now);
    }
    forall n ensures n in now.tags <==> NamesTags(data, n) { LegacyTags(data, n); }
  }

  lemma LegacyTags(data: PeerData, n: string)
    ensures NamesTags(LegacyData(data), n) <==> NamesTags(data, n)
  {
    PeerTagNamed(LegacyData(data), n);
    PeerTagNamed(data, n);
  }

  /** One upsert of a pushed peer. */
  lemma PushOneFollows(b: Book, data: PeerData, rid: string)
    requires Consistent(b) && forall n :: NamesTags(data, n) ==> n in TagNames(b)
    ensures var c := UpsertOne(b, data);
            if NamesId(data.id, rid)
            then PeerAt(c, rid).Some? && PushFollows(b.personal, data, Known(b, rid), PeerAt(c, rid).value)
            else PeerAt(c, rid) == PeerAt(b, rid)
  {
    IdNamed(data.id, rid);
    if CleanId(data.id).Some? {
      var full := LegacyData(data);
      forall n ensures NamesTags(full, n) <==> NamesTags(data, n) { LegacyTags(data, n); }
      UpsertFollows(b, CleanId(data.id).value, full);
      if CleanId(data.id) == Some(rid) {
        LegacyFollows(b.personal, data, Known(b, rid), PeerAt(UpsertOne(b, data), rid).value);
      }
    }
  }

  /** Later pushes of the same id overwrite everything but what none of them sets. */
  lemma PushTwice(personal: bool, data: PeerData, was: Peer, between: Peer, now: Peer)
    requires Column(between, Note) == Column(was, Note)
    requires !personal ==> Column(between, Hash) == Column(was, Hash)
    requires PushFollows(personal, data, between, now)
    ensures PushFollows(personal, data, was, now)
  {
  }

  /** Over the entries left in place, `b` being the book with the tags made. */
  lemma {:induction false} PushAllFollows(b: Book, entries: seq<PeerData>, rid: string)
    requires Consistent(b) && forall d, n :: d in entries && NamesTags(d, n) ==> n in TagNames(b)
    ensures match LastPushed(entries, rid)
            case None => PeerAt(UpsertAll(b, entries), rid) == PeerAt(b, rid)
            case Some(data) =>
              && PeerAt(UpsertAll(b, entries), rid).Some?
              && PushFollows(b.personal, data, Known(b, rid), PeerAt(UpsertAll(b, entries), rid).value)
  {
    if entries != [] {
      var init, d := DropLast(entries), Last(entries);
      var before := UpsertAll(b, init);
      assert forall x :: x in init ==> x in entries;
      assert d in entries;
      PushAllFollows(b, init, rid);
      UpsertAllRids(b, init);
      UpsertAllPersonal(b, init);
      assert TagNames(before) == TagNames(b);
      PushOneFollows(before, d, rid);
      if NamesId(d.id, rid) {
        PushTwice(b.personal, d, Known(b, rid), Known(before, rid), PeerAt(UpsertAll(b, entries), rid).value);
      }
    }
  }

  lemma {:induction false} UpsertAllPersonal(b: Book, entries: seq<PeerData>)
    ensures UpsertAll(b, entries).personal == b.personal
  {
    if entries != [] { UpsertAllPersonal(b, DropLast(entries)); }
  }

  lemma {:induction false} LastPushedIs(entries: seq<PeerData>, rid: string)
    ensures LastPushed(entries, rid).Some? <==> rid in PushIds(entries)
  {
    if entries != [] {
      LastPushedIs(DropLast(entries), rid);
      PushIdsLast(entries);
      IdNamed(Last(entries).id, rid);
    }
  }

  /** The tags part of a push changes no peer but for links to tags it does not mention. */
  lemma PushTagsPeer(b: Book, push: Push, rid: string)
    requires Consistent(b)
    ensures var c := PushTags(b, push);
            && (PeerAt(c, rid).Some? <==> PeerAt(b, rid).Some?)
            && (PeerAt(b, rid).Some? ==> PeerAt(c, rid).value.fields == PeerAt(b, rid).value.fields)
  {
    var wanted, colors := PushWanted(push), PushColors(push);
    var b1 := EnsureTags(b, wanted, colors);
    var b2 := Recolor(b1, colors);
    EnsureTagsFacts(b, wanted, colors);
    RecolorFacts(b1, colors);
    EnsurePeers(b, wanted, colors, rid);
    SamePeer(b1, b2, rid);
    CutPeer(b2, (iset n: string | n in wanted), rid);
  }

  lemma PushTagsColor(b: Book, push: Push, n: string)
    requires Consistent(b)
    ensures ColorAt(PushTags(b, push), n) ==
            if !Mentioned(push, n) then None
            else if n in push.tagColors then Some(NormalizeColor(push.tagColors[n]))
            else if ColorAt(b, n).Some? then ColorAt(b, n) else Some(0xFF64748B)
  {
    var wanted, colors := PushWanted(push), PushColors(push);
    var b1 := EnsureTags(b, wanted, colors);
    MentionedIsWanted(push, n);
    EnsureTagsFacts(b, wanted, colors);
    EnsureTagsColor(b, wanted, colors, n);
    RecolorFacts(b1, colors);
    PaintedColor(b1, colors, n);
    CutColor(Recolor(b1, colors), (iset m: string | m in wanted), n);
  }

  /** Main result. A push that succeeds leaves exactly the peers it names, each with the values of the last
      entry for its id (and its old note), and exactly the tags it mentions, in the colours it gives them or
      else those they had. */
  lemma PushLeaves(b: Book, push: Push)
    requires Consistent(b) && ReplaceEntries(b, push).Ok?
    ensures var c := ReplaceEntries(b, push).value;
            && (forall rid :: PushedAt(b, push.entries, rid, PeerAt(c, rid)))
            && (forall n :: ColorAt(c, n) ==
                  if !Mentioned(push, n) then None
                  else if n in push.tagColors then Some(NormalizeColor(push.tagColors[n]))
                  else if ColorAt(b, n).Some? then ColorAt(b, n) else Some(0xFF64748B))
  {
    var b1, ids := PushTags(b, push), PushIds(push.entries);
    var b2 := KeepEntries(b1, ids);
    var c := UpsertAll(b2, push.entries);
    if RepeatsNewId(Rids(b), push.entries) { RepeatBreaksUnique(b, push); }
    PushNormalForm(b, push);
    TagsPartConsistent(b, push);
    KeepEntriesConsistent(b1, ids);
    UpsertAllRids(b2, push.entries);
    assert TagNames(b2) == TagNames(b1);
    forall d, n | d in push.entries && NamesTags(d, n) ensures n in TagNames(b2) { MentionedIsWanted(push, n); }
    forall rid ensures PushedAt(b, push.entries, rid, PeerAt(c, rid)) { PushedPeer(b, push, b1, b2, rid); }
    forall n ensures ColorAt(c, n) == ColorAt(b1, n) { SameColors(b1, c, n); }
    forall n ensures ColorAt(b1, n) ==
            if !Mentioned(push, n) then None
            else if n in push.tagColors then Some(NormalizeColor(push.tagColors[n]))
            else if ColorAt(b, n).Some? then ColorAt(b, n) else Some(0xFF64748B)
    {
      PushTagsColor(b, push, n);
    }
  }

  lemma PushedPeer(b: Book, push: Push, b1: Book, b2: Book, rid: string)
    requires Consistent(b) && Consistent(b1) && Consistent(b2)
    requires b1 == PushTags(b, push) && b2 == KeepEntries(b1, PushIds(push.entries))
    requires forall d, n :: d in push.entries && NamesTags(d, n) ==> n in TagNames(b2)
    ensures PushedAt(b, push.entries, rid, PeerAt(UpsertAll(b2, push.entries), rid))
  {
    LastPushedIs(push.entries, rid);
    PushAllFollows(b2, push.entries, rid);
    KeptPeer(b1, PushIds(push.entries), rid);
    PushTagsPeer(b, push, rid);
    assert b2.personal == b.personal by { EnsureTagsFacts(b, PushWanted(push), PushColors(push)); }
  }
}
