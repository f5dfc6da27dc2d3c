/** What a book holds apart from its row ids: tags by name, peers by id. Every request changes this
    content in the same way whatever row ids the database hands out, ids of deleted rows included. */
module AddressBookContent {
  import opened Common
  import opened Text
  import opened TagColors
  import opened AddressBook
  import opened AddressBookRuns
  import opened AddressBookPush

  /** A peer with the names of its tags. */
  datatype Peer = Peer(rid: string, fields: map<Field, string>, tags: set<string>)

  datatype Content = Content(personal: bool, tags: set<TagRow>, peers: set<Peer>)

  // ---- The content of a book -------------------------------------------------------------

  ghost function LinkNames(b: Book, links: set<nat>): set<string> {
    set t | t in links && t in b.tags :: b.tags[t].name
  }

  ghost function PeerOf(b: Book, e: Entry): Peer {
    Peer(e.rid, e.fields, LinkNames(b, e.tags))
  }

  ghost function ContentOf(b: Book): Content {
    Content(b.personal, (set t | t in b.tags :: b.tags[t]), (set e | e in b.entries :: PeerOf(b, b.entries[e])))
  }

  ghost function NamesIn(c: Content): set<string> {
    set r | r in c.tags :: r.name
  }

  ghost function IdsIn(c: Content): set<string> {
    set p | p in c.peers :: p.rid
  }

  // ---- The requests on contents ------------------------------------------------------------

  ghost function MakeTag(c: Content, name: string, color: int): Content {
    if name in NamesIn(c) then c else c.(tags := c.tags + {TagRow(name, color)})
  }

  ghost function MakeTags(c: Content, names: seq<string>, colors: map<string, int>): Content {
    if names == [] then c else
    MakeTag(MakeTags(c, DropLast(names), colors), Last(names), ColorOf(colors, Last(names)))
  }

  ghost function Paint(c: Content, colors: map<string, int>): Content {
    c.(tags := set r | r in c.tags :: Repaint(r, colors))
  }

  ghost function Only(names: set<string>, kept: iset<string>): set<string> {
    set n | n in names && n in kept
  }

  ghost function OnlyTags(c: Content, kept: iset<string>): Content {
    c.(tags := (set r | r in c.tags && r.name in kept),
       peers := (set p | p in c.peers :: p.(tags := Only(p.tags, kept))))
  }

  function RenamedRow(r: TagRow, from: string, to: string): TagRow {
    if r.name == from then r.(name := to) else r
  }

  function RenamedName(n: string, from: string, to: string): string {
    if n == from then to else n
  }

  ghost function RenamedPeer(p: Peer, from: string, to: string): Peer {
    p.(tags := set n | n in p.tags :: RenamedName(n, from, to))
  }

  ghost function Rename(c: Content, from: string, to: string): Content {
    c.(tags := (set r | r in c.tags :: RenamedRow(r, from, to)),
       peers := (set p | p in c.peers :: RenamedPeer(p, from, to)))
  }

  ghost function Changed(c: Content, p: Peer, data: PeerData): Peer {
    Peer(p.rid, ApplyFields(c.personal, p.fields, data.fields),
         if data.tags.None? then p.tags else set n | n in PeerTagNames(data) && n in NamesIn(c))
  }

  ghost function ChangedIf(c: Content, p: Peer, rid: string, data: PeerData): Peer {
    if p.rid == rid then Changed(c, p, data) else p
  }

  ghost function ChangePeer(c: Content, rid: string, data: PeerData): Content {
    c.(peers := set p | p in c.peers :: ChangedIf(c, p, rid, data))
  }

  ghost function PutPeer(c: Content, rid: string, data: PeerData): Content {
    if rid in IdsIn(c) then ChangePeer(c, rid, data)
    else c.(peers := c.peers + {Changed(c, Peer(rid, map[], {}), data)})
  }

  ghost function OnlyPeers(c: Content, kept: iset<string>): Content {
    c.(peers := set p | p in c.peers && p.rid in kept)
  }

  ghost function PutOne(c: Content, data: PeerData): Content {
    match CleanId(data.id)
    case None => c
    case Some(rid) => PutPeer(c, rid, LegacyData(data))
  }

  ghost function PutAll(c: Content, entries: seq<PeerData>): Content {
    if entries == [] then c else PutOne(PutAll(c, DropLast(entries)), Last(entries))
  }

  ghost function PushedTags(c: Content, push: Push): Content {
    var wanted, colors := PushWanted(push), PushColors(push);
    OnlyTags(Paint(MakeTags(c, wanted, colors), colors), iset n: string | n in wanted)
  }

  /** A whole-list push: refused when it repeats an id that is not there yet. */
  ghost function Pushed(c: Content, push: Push): Result<Content, Error> {
    if RepeatsNewId(IdsIn(c), push.entries) then Err(Integrity)
    else Ok(PutAll(OnlyPeers(PushedTags(c, push), PushIds(push.entries)), push.entries))
  }

  ghost function AddedTag(c: Content, name: Option<string>, color: RawColor): Result<Content, Error> {
    match CleanTagName(name)
    case None => Err(Invalid)
    case Some(clean) =>
      Ok(Paint(MakeTag(c, clean, NormalizeColor(color)), map[clean := NormalizeColor(color)]))
  }

  ghost function Renamed(c: Content, old_: Option<string>, new_: Option<string>): Result<Content, Error> {
    var from, to := CleanTagName(old_), CleanTagName(new_);
    if from.None? || to.None? then Err(Invalid)
    else if from.value !in NamesIn(c) then Err(NotFound)
    else if to.value != from.value && to.value in NamesIn(c) then Err(Conflict)
    else Ok(Rename(c, from.value, to.value))
  }

  ghost function Painted(c: Content, name: Option<string>, color: RawColor): Result<Content, Error> {
    match CleanTagName(name)
    case None => Err(Invalid)
    case Some(clean) =>
      if clean !in NamesIn(c) then Err(NotFound) else Ok(Paint(c, map[clean := NormalizeColor(color)]))
  }

  ghost function AddedPeer(c: Content, data: PeerData): Result<Content, Error> {
    match CleanId(data.id)
    case None => Err(Invalid)
    case Some(rid) => Ok(PutPeer(MakeTags(c, PeerTagNames(data), map[]), rid, data))
  }

  ghost function UpdatedPeer(c: Content, data: PeerData): Result<Content, Error> {
    match CleanId(data.id)
    case None => Err(Invalid)
    case Some(rid) =>
      if rid !in IdsIn(c) then Err(NotFound)
      else Ok(ChangePeer(MakeTags(c, PeerTagNames(data), map[]), rid, data))
  }

  ghost function AttemptOn(c: Content, op: Op): Result<Content, Error> {
    match op
    case OpAddTag(name, color) => AddedTag(c, name, color)
    case OpRenameTag(from, to) => Renamed(c, from, to)
    case OpSetTagColor(name, color) => Painted(c, name, color)
    case OpDeleteTags(names) => Ok(OnlyTags(c, iset n: string | n !in CleanTagNames(names)))
    case OpAddPeer(data) => AddedPeer(c, data)
    case OpUpdatePeer(data) => UpdatedPeer(c, data)
    case OpDeletePeers(ids) => Ok(OnlyPeers(c, iset rid: string | Some(rid) !in ids))
    case OpPush(push) => Pushed(c, push)
  }

  ghost function ApplyOn(c: Content, op: Op): Content {
    match AttemptOn(c, op)
    case Ok(c') => c'
    case Err(_) => c
  }

  ghost function RunOn(c: Content, ops: seq<Op>): Content {
    if ops == [] then c else ApplyOn(RunOn(c, DropLast(ops)), Last(ops))
  }

  // ---- Each request does the same to the content ---------------------------------------------

  lemma SameNames(b: Book)
    ensures NamesIn(ContentOf(b)) == TagNames(b)
  {
    forall n | n in TagNames(b) ensures n in NamesIn(ContentOf(b)) {
      var t :| t in b.tags && b.tags[t].name == n;
      assert b.tags[t] in ContentOf(b).tags;
    }
  }

  lemma SameIds(b: Book)
    ensures IdsIn(ContentOf(b)) == Rids(b)
  {
    forall r | r in Rids(b) ensures r in IdsIn(ContentOf(b)) {
      var e :| e in b.entries && b.entries[e].rid == r;
      assert PeerOf(b, b.entries[e]) in ContentOf(b).peers;
    }
  }

  lemma MakeTagSame(b: Book, name: string, color: int)
    requires Consistent(b)
    ensures ContentOf(EnsureTag(b, name, color)) == MakeTag(ContentOf(b), name, color)
  {
    SameNames(b);
    if name !in TagNames(b) {
      var r := EnsureTag(b, name, color);
      forall e | e in b.entries ensures PeerOf(r, b.entries[e]) == PeerOf(b, b.entries[e]) {
        assert b.nextTag !in b.entries[e].tags;
      }
      assert r.tags[b.nextTag] == TagRow(name, color);
      assert ContentOf(r).tags == ContentOf(b).tags + {TagRow(name, color)} by {
        assert forall t :: t in b.tags ==> r.tags[t] == b.tags[t];
      }
      assert ContentOf(r).peers == ContentOf(b).peers;
    }
  }

  lemma {:induction false} MakeTagsSame(b: Book, names: seq<string>, colors: map<string, int>)
    requires Consistent(b)
    ensures ContentOf(EnsureTags(b, names, colors)) == MakeTags(ContentOf(b), names, colors)
    decreases names
  {
    if names != [] {
      MakeTagsSame(b, DropLast(names), colors);
      EnsureTagsFacts(b, DropLast(names), colors);
      MakeTagSame(EnsureTags(b, DropLast(names), colors), Last(names), ColorOf(colors, Last(names)));
    }
  }

  lemma PaintSame(b: Book, colors: map<string, int>)
    ensures ContentOf(Recolor(b, colors)) == Paint(ContentOf(b), colors)
  {
    var r := Recolor(b, colors);
    forall e | e in b.entries ensures PeerOf(r, b.entries[e]) == PeerOf(b, b.entries[e]) {
      assert forall t :: t in b.tags ==> r.tags[t].name == b.tags[t].name;
    }
    assert ContentOf(r).peers == ContentOf(b).peers;
    forall t | t in b.tags ensures r.tags[t] in Paint(ContentOf(b), colors).tags {
      assert b.tags[t] in ContentOf(b).tags;
    }
  }

  lemma LinksKept(b: Book, links: set<nat>, kept: iset<string>)
    ensures var k := KeepTags(b, kept);
            LinkNames(k, links - (b.tags.Keys - k.tags.Keys)) == Only(LinkNames(b, links), kept)
  {
    var k := KeepTags(b, kept);
    var left := LinkNames(k, links - (b.tags.Keys - k.tags.Keys));
    forall n | n in Only(LinkNames(b, links), kept) ensures n in left {
      var t :| t in links && t in b.tags && b.tags[t].name == n;
      assert t in k.tags && k.tags[t].name == n;
    }
  }

  lemma OnlyTagsSame(b: Book, kept: iset<string>)
    ensures ContentOf(KeepTags(b, kept)) == OnlyTags(ContentOf(b), kept)
  {
    var k, c := KeepTags(b, kept), OnlyTags(ContentOf(b), kept);
    forall e | e in b.entries
      ensures PeerOf(k, k.entries[e]) == PeerOf(b, b.entries[e]).(tags := Only(PeerOf(b, b.entries[e]).tags, kept))
    {
      LinksKept(b, b.entries[e].tags, kept);
    }
    forall e | e in b.entries ensures PeerOf(k, k.entries[e]) in c.peers {
      assert PeerOf(b, b.entries[e]) in ContentOf(b).peers;
    }
    forall r | r in c.tags ensures r in ContentOf(k).tags {
      var t :| t in b.tags && b.tags[t] == r;
      assert t in k.tags && k.tags[t] == r;
    }
    assert ContentOf(k).tags == c.tags;
    assert ContentOf(k).peers == c.peers;
  }

  lemma RenameSame(b: Book, from: Option<string>, to: Option<string>)
    requires RenameTag(b, from, to).Ok?
    ensures ContentOf(RenameTag(b, from, to).value)
         == Rename(ContentOf(b), CleanTagName(from).value, CleanTagName(to).value)
  {
    var r, f, n := RenameTag(b, from, to).value, CleanTagName(from).value, CleanTagName(to).value;
    assert forall t :: t in b.tags ==> r.tags[t] == RenamedRow(b.tags[t], f, n);
    assert r.tags.Keys == b.tags.Keys;
    RenamedTags(b, r, f, n);
    RenamedPeers(b, r, f, n);
  }

  /** The rows of the later book are those of the earlier one, renamed. */
  ghost predicate RowsRenamed(b: Book, r: Book, from: string, to: string) {
    && r.tags.Keys == b.tags.Keys && r.entries == b.entries
    && forall t :: t in b.tags ==> r.tags[t] == RenamedRow(b.tags[t], from, to)
  }

  lemma RenamedTags(b: Book, r: Book, from: string, to: string)
    requires RowsRenamed(b, r, from, to)
    ensures ContentOf(r).tags == Rename(ContentOf(b), from, to).tags
  {
    forall t | t in b.tags ensures r.tags[t] in Rename(ContentOf(b), from, to).tags {
      assert b.tags[t] in ContentOf(b).tags;
    }
  }

  lemma RenamedPeers(b: Book, r: Book, from: string, to: string)
    requires RowsRenamed(b, r, from, to)
    ensures ContentOf(r).peers == Rename(ContentOf(b), from, to).peers
  {
    var c := Rename(ContentOf(b), from, to);
    forall e | e in b.entries
      ensures PeerOf(r, b.entries[e]) == RenamedPeer(PeerOf(b, b.entries[e]), from, to)
      ensures PeerOf(r, b.entries[e]) in c.peers
    {
      RenamedLinks(b, r, b.entries[e].tags, from, to);
      assert PeerOf(b, b.entries[e]) in ContentOf(b).peers;
    }
  }

  lemma RenamedLinks(b: Book, r: Book, links: set<nat>, from: string, to: string)
    requires r.tags.Keys == b.tags.Keys
    requires forall t :: t in b.tags ==> r.tags[t] == RenamedRow(b.tags[t], from, to)
    ensures LinkNames(r, links) == set n | n in LinkNames(b, links) :: RenamedName(n, from, to)
  {
    forall t | t in links && t in b.tags ensures r.tags[t].name == RenamedName(b.tags[t].name, from, to) {}
    forall n | n in LinkNames(r, links) ensures exists m :: m in LinkNames(b, links) && RenamedName(m, from, to) == n {
      var t :| t in links && t in r.tags && r.tags[t].name == n;
      assert b.tags[t].name in LinkNames(b, links);
    }
  }

  lemma ChangedSame(b: Book, e: Entry, data: PeerData)
    ensures PeerOf(b, Updated(b, e, data)) == Changed(ContentOf(b), PeerOf(b, e), data)
  {
    SameNames(b);
    var names := PeerTagNames(data);
    forall n | n in names && n in TagNames(b) ensures n in LinkNames(b, LinkIds(b, names)) {
      var t :| t in b.tags && b.tags[t].name == n;
      assert t in LinkIds(b, names);
    }
    assert LinkNames(b, LinkIds(b, names)) == set n | n in names && n in TagNames(b);
  }

  lemma ChangePeerSame(b: Book, rid: string, data: PeerData)
    ensures ContentOf(UpdateRow(b, rid, data)) == ChangePeer(ContentOf(b), rid, data)
  {
    var u, c := UpdateRow(b, rid, data), ChangePeer(ContentOf(b), rid, data);
    forall e | e in b.entries
      ensures PeerOf(u, u.entries[e]) == ChangedIf(ContentOf(b), PeerOf(b, b.entries[e]), rid, data)
    {
      ChangedSame(b, b.entries[e], data);
      assert PeerOf(u, u.entries[e]) == PeerOf(b, u.entries[e]);
    }
    forall e | e in b.entries ensures PeerOf(u, u.entries[e]) in c.peers {
      assert PeerOf(b, b.entries[e]) in ContentOf(b).peers;
    }
    assert ContentOf(u).peers == c.peers;
  }

  lemma InsertSame(b: Book, rid: string, data: PeerData)
    requires CountersFresh(b)
    ensures ContentOf(InsertRow(b, rid, data)) ==
            var c := ContentOf(b); c.(peers := c.peers + {Changed(c, Peer(rid, map[], {}), data)})
  {
    var u, row := InsertRow(b, rid, data), Entry(rid, map[], {});
    ChangedSame(b, row, data);
    assert PeerOf(b, row) == Peer(rid, map[], {});
    assert forall e :: e in b.entries ==> u.entries[e] == b.entries[e];
    forall e: Entry ensures PeerOf(u, e) == PeerOf(b, e) {}
    assert u.entries[b.nextEntry] == Updated(b, row, data);
    assert ContentOf(u).peers == ContentOf(b).peers + {PeerOf(b, Updated(b, row, data))};
  }

  lemma PutPeerSame(b: Book, rid: string, data: PeerData)
    requires Consistent(b)
    ensures ContentOf(Upsert(b, rid, data)) == PutPeer(ContentOf(b), rid, data)
  {
    SameIds(b);
    if rid in Rids(b) { ChangePeerSame(b, rid, data); } else { InsertSame(b, rid, data); }
  }

  lemma OnlyPeersSame(b: Book, kept: iset<string>)
    ensures ContentOf(KeepEntries(b, kept)) == OnlyPeers(ContentOf(b), kept)
  {
    var k, c := KeepEntries(b, kept), OnlyPeers(ContentOf(b), kept);
    forall e: Entry ensures PeerOf(k, e) == PeerOf(b, e) {}
    forall p | p in c.peers ensures p in ContentOf(k).peers {
      var e :| e in b.entries && PeerOf(b, b.entries[e]) == p;
      assert e in k.entries;
    }
    assert ContentOf(k).peers == c.peers;
  }

  lemma {:induction false} PutAllSame(b: Book, entries: seq<PeerData>)
    requires Consistent(b)
    ensures ContentOf(UpsertAll(b, entries)) == PutAll(ContentOf(b), entries)
  {
    if entries != [] {
      PutAllSame(b, DropLast(entries));
      UpsertAllRids(b, DropLast(entries));
      if CleanId(Last(entries).id).Some? {
        PutPeerSame(UpsertAll(b, DropLast(entries)), CleanId(Last(entries).id).value, LegacyData(Last(entries)));
      }
    }
  }

  lemma PushedTagsSame(b: Book, push: Push)
    requires Consistent(b)
    ensures ContentOf(PushTags(b, push)) == PushedTags(ContentOf(b), push)
  {
    var wanted, colors := PushWanted(push), PushColors(push);
    MakeTagsSame(b, wanted, colors);
    PaintSame(EnsureTags(b, wanted, colors), colors);
    OnlyTagsSame(Recolor(EnsureTags(b, wanted, colors), colors), iset n: string | n in wanted);
  }

  /** What a request makes of a book, seen as contents. */
  ghost predicate Agree(r: Result<Book, Error>, c: Result<Content, Error>) {
    match (r, c)
    case (Ok(b), Ok(content)) => ContentOf(b) == content
    case (Err(e), Err(f)) => e == f
    case _ => false
  }

  lemma PushedSame(b: Book, push: Push)
    requires Consistent(b)
    ensures Agree(ReplaceEntries(b, push), Pushed(ContentOf(b), push))
  {
    SameIds(b);
    if RepeatsNewId(Rids(b), push.entries) {
      RepeatBreaksUnique(b, push);
    } else {
      var b1 := PushTags(b, push);
      PushNormalForm(b, push);
      TagsPartConsistent(b, push);
      PushedTagsSame(b, push);
      OnlyPeersSame(b1, PushIds(push.entries));
      KeepEntriesConsistent(b1, PushIds(push.entries));
      PutAllSame(KeepEntries(b1, PushIds(push.entries)), push.entries);
    }
  }

  lemma AddTagSame(b: Book, name: Option<string>, color: RawColor)
    requires Consistent(b)
    ensures Agree(AddTag(b, name, color), AddedTag(ContentOf(b), name, color))
  {
    if CleanTagName(name).Some? {
      var clean, c := CleanTagName(name).value, NormalizeColor(color);
      MakeTagSame(b, clean, c);
      PaintSame(EnsureTag(b, clean, c), map[clean := c]);
    }
  }

  lemma PeerSame(b: Book, data: PeerData)
    requires Consistent(b)
    ensures Agree(AddPeer(b, data), AddedPeer(ContentOf(b), data))
    ensures Agree(UpdatePeer(b, data), UpdatedPeer(ContentOf(b), data))
  {
    SameIds(b);
    if CleanId(data.id).Some? {
      var b1 := EnsureTags(b, PeerTagNames(data), map[]);
      EnsureTagsFacts(b, PeerTagNames(data), map[]);
      MakeTagsSame(b, PeerTagNames(data), map[]);
      PutPeerSame(b1, CleanId(data.id).value, data);
      ChangePeerSame(b1, CleanId(data.id).value, data);
    }
  }

  /** A request is answered, and changes the content, alike whatever the row ids are. */
  lemma AttemptSame(b: Book, op: Op)
    requires Consistent(b)
    ensures Agree(Attempt(b, op), AttemptOn(ContentOf(b), op))
  {
    SameNames(b);
    match op
    case OpAddTag(name, color) => AddTagSame(b, name, color);
    case OpRenameTag(from, to) => if RenameTag(b, from, to).Ok? { RenameSame(b, from, to); }
    case OpSetTagColor(name, color) =>
      if CleanTagName(name).Some? { PaintSame(b, map[CleanTagName(name).value := NormalizeColor(color)]); }
    case OpDeleteTags(names) => OnlyTagsSame(b, iset n: string | n !in CleanTagNames(names));
    case OpAddPeer(data) => PeerSame(b, data);
    case OpUpdatePeer(data) => PeerSame(b, data);
    case OpDeletePeers(ids) => OnlyPeersSame(b, iset rid: string | Some(rid) !in ids);
    case OpPush(push) => PushedSame(b, push);
  }

  // ---- Runs with whatever row ids the database hands out ------------------------------------------

  /** A request, and the first row ids that the database hands out for it. */
  datatype Turn = Turn(op: Op, nextTag: nat, nextEntry: nat)

  ghost function Dealt(b: Book, t: Turn): Book {
    b.(nextTag := t.nextTag, nextEntry := t.nextEntry)
  }

  ghost function TurnsRun(b: Book, turns: seq<Turn>): Book {
    if turns == [] then b
    else var before := TurnsRun(b, DropLast(turns)); Apply(Dealt(before, Last(turns)), Last(turns).op)
  }

  /** The ids handed out for a request lie above those in use at that moment, but not necessarily above
      those of deleted rows. */
  ghost predicate AllFresh(b: Book, turns: seq<Turn>) {
    turns == [] ||
    (AllFresh(b, DropLast(turns)) && CountersFresh(Dealt(TurnsRun(b, DropLast(turns)), Last(turns))))
  }

  ghost function Ops(turns: seq<Turn>): seq<Op> {
    seq(|turns|, i requires 0 <= i < |turns| => turns[i].op)
  }

  lemma OpsLast(turns: seq<Turn>)
    requires turns != []
    ensures Ops(turns) != [] && DropLast(Ops(turns)) == Ops(DropLast(turns)) && Last(Ops(turns)) == Last(turns).op
  {
  }

  lemma DealtSame(b: Book, t: Turn)
    requires Consistent(b) && CountersFresh(Dealt(b, t))
    ensures Consistent(Dealt(b, t)) && ContentOf(Dealt(b, t)) == ContentOf(b)
  {
    forall e: Entry ensures PeerOf(Dealt(b, t), e) == PeerOf(b, e) {}
  }

  /** Main result. In every run the content of a book follows the requests alone: no row id has any
      influence on it, however the database hands them out. */
  lemma {:induction false} ContentFollows(b: Book, turns: seq<Turn>)
    requires Consistent(b) && AllFresh(b, turns)
    ensures Consistent(TurnsRun(b, turns))
    ensures ContentOf(TurnsRun(b, turns)) == RunOn(ContentOf(b), Ops(turns))
  {
    if turns != [] {
      var before, t := TurnsRun(b, DropLast(turns)), Last(turns);
      ContentFollows(b, DropLast(turns));
      OpsLast(turns);
      DealtSame(before, t);
      AttemptSame(Dealt(before, t), t.op);
      ApplyConsistent(Dealt(before, t), t.op);
    }
  }

  lemma {:induction false} RunSame(b: Book, ops: seq<Op>)
    requires Consistent(b)
    ensures ContentOf(Run(b, ops)) == RunOn(ContentOf(b), ops)
  {
    if ops != [] {
      RunSame(b, DropLast(ops));
      RunConsistent(b, DropLast(ops));
      AttemptSame(Run(b, DropLast(ops)), Last(ops));
    }
  }

  // ---- Rows that stay keep their ids ----------------------------------------------------------------

  /** Entries with these ids and tags with these names are still there, under the same row ids. */
  ghost predicate Stays(a: Book, b: Book, rids: iset<string>, names: iset<string>) {
    && (forall e :: e in a.entries && a.entries[e].rid in rids ==>
          e in b.entries && b.entries[e].rid == a.entries[e].rid)
    && (forall t :: t in a.tags && a.tags[t].name in names ==>
          t in b.tags && b.tags[t].name == a.tags[t].name)
  }

  /** A request that deletes or renames none of them. */
  ghost predicate Spares(op: Op, rids: iset<string>, names: iset<string>) {
    match op
    case OpRenameTag(from, _) => CleanTagName(from).Some? ==> CleanTagName(from).value !in names
    case OpDeleteTags(gone) => forall n :: n in CleanTagNames(gone) ==> n !in names
    case OpDeletePeers(ids) => forall rid :: rid in rids ==> Some(rid) !in ids
    case OpPush(push) => rids <= PushIds(push.entries) && forall n :: n in names ==> n in PushWanted(push)
    case _ => true
  }

  lemma PushStays(b: Book, push: Push, rids: iset<string>, names: iset<string>)
    requires Consistent(b) && Spares(OpPush(push), rids, names)
    ensures Stays(b, Overwritten(b, push), rids, names)
  {
    var wanted, colors := PushWanted(push), PushColors(push);
    var b1 := PushTags(b, push);
    EnsureTagsFacts(b, wanted, colors);
    TagsPartConsistent(b, push);
    assert Stays(b, b1, rids, names);
    RowsPersist(b1, Rids(b), push.entries, 0);
    assert push.entries[..0] == [];
    PushAllLive(b1, Rids(b), push.entries);
  }

  lemma PeerStays(b: Book, rid: string, data: PeerData, rids: iset<string>, names: iset<string>)
    requires Consistent(b)
    ensures Stays(b, UpdateRow(EnsureTags(b, PeerTagNames(data), map[]), rid, data), rids, names)
    ensures Stays(b, Upsert(EnsureTags(b, PeerTagNames(data), map[]), rid, data), rids, names)
  {
    EnsureTagsFacts(b, PeerTagNames(data), map[]);
  }

  lemma TagStays(b: Book, name: string, color: int, rids: iset<string>, names: iset<string>)
    requires Consistent(b)
    ensures Stays(b, Recolor(EnsureTag(b, name, color), map[name := color]), rids, names)
  {
    EnsureTagFacts(b, name, color);
  }

  lemma AttemptStays(b: Book, op: Op, rids: iset<string>, names: iset<string>)
    requires Consistent(b) && Spares(op, rids, names)
    ensures Stays(b, Apply(b, op), rids, names)
  {
    match op
    case OpAddTag(name, color) =>
      if CleanTagName(name).Some? { TagStays(b, CleanTagName(name).value, NormalizeColor(color), rids, names); }
    case OpAddPeer(data) =>
      if CleanId(data.id).Some? { PeerStays(b, CleanId(data.id).value, data, rids, names); }
    case OpUpdatePeer(data) =>
      if CleanId(data.id).Some? { PeerStays(b, CleanId(data.id).value, data, rids, names); }
    case OpPush(push) => PushStays(b, push, rids, names);
    case _ =>
  }

  /** In every run of requests that spare them, whatever ids new rows get. */
  lemma {:induction false} RunStays(b: Book, turns: seq<Turn>, rids: iset<string>, names: iset<string>)
    requires Consistent(b) && AllFresh(b, turns)
    requires forall i :: 0 <= i < |turns| ==> Spares(turns[i].op, rids, names)
    ensures Stays(b, TurnsRun(b, turns), rids, names)
  {
    if turns != [] {
      var before, t := TurnsRun(b, DropLast(turns)), Last(turns);
      RunStays(b, DropLast(turns), rids, names);
      ContentFollows(b, DropLast(turns));
      DealtSame(before, t);
      AttemptStays(Dealt(before, t), t.op, rids, names);
    }
  }

  // ---- The push and its script, whatever the row ids -------------------------------------------------

  lemma {:induction false} AddTagOpsSpare(
      have: set<string>, wanted: seq<string>, push: Push, rids: iset<string>, names: iset<string>)
    ensures forall op :: op in AddTagOps(have, wanted, push) ==> Spares(op, rids, names)
  {
    if wanted != [] { AddTagOpsSpare(have, DropLast(wanted), push, rids, names); }
  }

  lemma {:induction false} AddPeerOpsSpare(entries: seq<PeerData>, rids: iset<string>, names: iset<string>)
    ensures forall op :: op in AddPeerOps(entries) ==> Spares(op, rids, names)
  {
    if entries != [] { AddPeerOpsSpare(DropLast(entries), rids, names); }
  }

  lemma {:induction false} RecolorOpsSpare(painted: seq<string>, push: Push, rids: iset<string>, names: iset<string>)
    ensures forall op :: op in RecolorOps(painted, push) ==> Spares(op, rids, names)
  {
    if painted != [] { RecolorOpsSpare(DropLast(painted), push, rids, names); }
  }

  /** What the push keeps: the ids it names and the tags it mentions. */
  ghost predicate KeepsRows(b: Book, r: Book, push: Push) {
    Stays(b, r, PushIds(push.entries), iset n: string | n in PushWanted(push))
  }

  lemma ScriptSpares(b: Book, push: Push, gone: seq<string>, painted: seq<string>, stale: seq<string>)
    requires NamesStable(b, push) && Lists(b, push, gone, painted, stale)
    ensures forall op :: op in Script(b, push, gone, painted, stale) ==>
              Spares(op, PushIds(push.entries), iset n: string | n in PushWanted(push))
  {
    var rids, names := PushIds(push.entries), iset n: string | n in PushWanted(push);
    AddTagOpsSpare(TagNames(b), PushWanted(push), push, rids, names);
    AddPeerOpsSpare(push.entries, rids, names);
    RecolorOpsSpare(painted, push, rids, names);
    forall n: string ensures n in CleanTagNames(Raw(stale)) <==> n in stale { CleanStable(stale, n); }
    assert Spares(OpDeletePeers(Raw(gone)), rids, names);
    assert Spares(OpDeleteTags(Raw(stale)), rids, names);
  }

  /** Main result. Whatever row ids the database hands out, those of deleted rows included: a push of a
      client's whole list fails exactly when it repeats an id the book does not have, and otherwise it
      leaves the same peers, fields, tags, colours and links as the requests of the per-item protocol.
      Both leave every row that the push keeps under its row id. */
  lemma PushRefinesAnyIds(
      b: Book, push: Push, gone: seq<string>, painted: seq<string>, stale: seq<string>, at: Turn, turns: seq<Turn>)
    requires Consistent(b) && NamesStable(b, push) && Lists(b, push, gone, painted, stale)
    requires at.op == OpPush(push) && CountersFresh(Dealt(b, at))
    requires Ops(turns) == Script(b, push, gone, painted, stale) && AllFresh(b, turns)
    ensures var pushed, script := ReplaceEntries(Dealt(b, at), push), TurnsRun(b, turns);
            if RepeatsNewId(Rids(b), push.entries) then pushed == Err(Integrity)
            else
              && pushed.Ok? && ContentOf(pushed.value) == ContentOf(script)
              && KeepsRows(b, pushed.value, push) && KeepsRows(b, script, push)
  {
    PushRefinesItems(b, push, gone, painted, stale);
    AttemptSame(b, at.op);
    RunSame(b, Script(b, push, gone, painted, stale));
    DealtSame(b, at);
    AttemptSame(Dealt(b, at), at.op);
    ContentFollows(b, turns);
    BothKeepRows(b, push, gone, painted, stale, at, turns);
  }

  lemma BothKeepRows(
      b: Book, push: Push, gone: seq<string>, painted: seq<string>, stale: seq<string>, at: Turn, turns: seq<Turn>)
    requires Consistent(b) && NamesStable(b, push) && Lists(b, push, gone, painted, stale)
    requires CountersFresh(Dealt(b, at))
    requires Ops(turns) == Script(b, push, gone, painted, stale) && AllFresh(b, turns)
    ensures KeepsRows(b, Overwritten(Dealt(b, at), push), push) && KeepsRows(b, TurnsRun(b, turns), push)
  {
    var rids, names := PushIds(push.entries), iset n: string | n in PushWanted(push);
    ScriptSpares(b, push, gone, painted, stale);
    forall i | 0 <= i < |turns| ensures Spares(turns[i].op, rids, names) {
      assert Ops(turns)[i] in Script(b, push, gone, painted, stale);
    }
    RunStays(b, turns, rids, names);
    DealtSame(b, at);
    PushStays(Dealt(b, at), push, rids, names);
  }

  /** Books with the same content hold the same under each id, whatever the row. */
  lemma SameContentSamePeer(a: Book, b: Book, d: nat, e: nat)
    requires Consistent(a) && Consistent(b) && ContentOf(a) == ContentOf(b)
    requires d in a.entries && e in b.entries && a.entries[d].rid == b.entries[e].rid
    ensures a.entries[d].fields == b.entries[e].fields
    ensures LinkNames(a, a.entries[d].tags) == LinkNames(b, b.entries[e].tags)
  {
    assert PeerOf(a, a.entries[d]) in ContentOf(b).peers;
    var f :| f in b.entries && PeerOf(b, b.entries[f]) == PeerOf(a, a.entries[d]);
    assert f == e;
  }

  // ---- The row ids of new rows can differ ------------------------------------------------------------

  /** One entry, and a push of another: the push inserts before it deletes, the script afterwards. */
  ghost function OneEntry(): Book {
    Book(true, map[], map[1 := Entry("B", map[], {})], 1, 2)
  }

  ghost function OtherPeer(): PeerData {
    PeerData(Some("C"), map[], None)
  }

  ghost function OneScript(): seq<Turn> {
    [Turn(OpDeletePeers([Some("B")]), 1, 2),
     Turn(OpAddPeer(LegacyData(OtherPeer())), 1, 1),
     Turn(OpDeleteTags([]), 1, 2)]
  }

  ghost function OnePush(): Push {
    Push([OtherPeer()], [], map[])
  }

  lemma CleanC()
    ensures CleanId(OtherPeer().id) == Some("C") && PushWanted(OnePush()) == []
    ensures PeerTagNames(LegacyData(OtherPeer())) == []
    ensures forall r :: r in PushIds(OnePush().entries) <==> r == "C"
  {
    TrimFixed("C");
    var none: seq<Option<string>> := [];
    assert CleanTagNames(none) == [];
    assert OnePush().entries[..0] == [] && WantedTags([], []) == [];
    assert OtherPeer() in OnePush().entries;
  }

  lemma OneScriptFits()
    ensures Consistent(OneEntry()) && NamesStable(OneEntry(), OnePush())
    ensures Lists(OneEntry(), OnePush(), ["B"], [], []) && !RepeatsNewId(Rids(OneEntry()), OnePush().entries)
    ensures Ops(OneScript()) == Script(OneEntry(), OnePush(), ["B"], [], [])
  {
    var b, push, none := OneEntry(), OnePush(), [];
    CleanC();
    assert b.entries[1].rid == "B" && Rids(b) == {"B"};
    assert Raw(["B"]) == [Some("B")] && Raw(none) == [];
    assert AddTagOps(TagNames(b), [], push) == [] && RecolorOps([], push) == [];
    assert DropLast(push.entries) == [] && AddPeerOps([]) == [];
    assert AddPeerOps(push.entries) == [OpAddPeer(LegacyData(OtherPeer()))];
  }

  ghost function WithC(e: nat): map<nat, Entry> {
    map[e := Updated(OneEntry(), Entry("C", map[], {}), LegacyData(OtherPeer()))]
  }

  lemma NoLinksToCut(b: Book, kept: iset<string>)
    requires forall e :: e in b.entries ==> b.entries[e].tags == {}
    ensures KeepTags(b, kept).entries == b.entries
  {
    var k := KeepTags(b, kept);
    assert k.entries.Keys == b.entries.Keys;
    forall e | e in b.entries ensures k.entries[e] == b.entries[e] {
      assert b.entries[e].tags - (b.tags.Keys - k.tags.Keys) == b.entries[e].tags;
    }
  }

  lemma PushedTagsC()
    ensures PushTags(OneEntry(), OnePush()) == OneEntry()
  {
    var b, push := OneEntry(), OnePush();
    CleanC();
    var painted := Recolor(b, PushColors(push));
    assert EnsureTags(b, [], PushColors(push)) == b;
    assert painted == b;
    NoLinksToCut(b, iset n: string | n in PushWanted(push));
    assert KeepTags(b, iset n: string | n in PushWanted(push)).tags == map[];
  }

  lemma InsertedC(push: Push)
    requires push == OnePush()
    ensures PushAll(OneEntry(), {"B"}, push.entries) == InsertRow(OneEntry(), "C", LegacyData(OtherPeer()))
  {
    CleanC();
    assert DropLast(push.entries) == [];
    assert PushAll(OneEntry(), {"B"}, []) == OneEntry();
  }

  lemma OnlyCKept(b: Book, kept: iset<string>)
    requires b.entries == OneEntry().entries + WithC(2) && "C" in kept && "B" !in kept
    ensures KeepEntries(b, kept).entries == WithC(2)
  {
  }

  lemma PushedC()
    ensures Overwritten(OneEntry(), OnePush()).entries == WithC(2)
  {
    var b, push := OneEntry(), OnePush();
    CleanC();
    PushedTagsC();
    assert Rids(b) == {"B"} by { assert b.entries[1].rid == "B"; }
    InsertedC(push);
    OnlyCKept(InsertRow(b, "C", LegacyData(OtherPeer())), PushIds(push.entries));
  }

  lemma OneMoreTurn(b: Book, turns: seq<Turn>, t: Turn)
    ensures TurnsRun(b, turns + [t]) == Apply(Dealt(TurnsRun(b, turns), t), t.op)
    ensures AllFresh(b, turns + [t]) <==> AllFresh(b, turns) && CountersFresh(Dealt(TurnsRun(b, turns), t))
  {
    assert DropLast(turns + [t]) == turns;
  }

  /** The three requests of the script, one after the other. */
  lemma DeletedB(b: Book)
    requires b == Dealt(OneEntry(), OneScript()[0])
    ensures Apply(b, OneScript()[0].op).entries == map[] && Apply(b, OneScript()[0].op).tags == map[]
    ensures Apply(b, OneScript()[0].op).personal
  {
  }

  lemma AddedC(b: Book)
    requires b.entries == map[] && b.tags == map[] && b.personal && b.nextEntry == 1
    ensures Apply(b, OneScript()[1].op).entries == WithC(1) && Apply(b, OneScript()[1].op).tags == map[]
  {
    CleanC();
    SameUpdate(OneEntry(), b, Entry("C", map[], {}), LegacyData(OtherPeer()));
    assert Apply(b, OneScript()[1].op) == InsertRow(b, "C", LegacyData(OtherPeer()));
  }

  lemma DeletedNothing(b: Book)
    requires b.tags == map[] && forall e :: e in b.entries ==> b.entries[e].tags == {}
    ensures Apply(b, OneScript()[2].op).entries == b.entries
  {
    NoLinksToCut(b, iset n: string | n !in CleanTagNames([]));
  }

  lemma ScriptedC()
    ensures AllFresh(OneEntry(), OneScript()) && TurnsRun(OneEntry(), OneScript()).entries == WithC(1)
  {
    var b := OneEntry();
    var x, y, z := OneScript()[0], OneScript()[1], OneScript()[2];
    OneMoreTurn(b, [], x);
    OneMoreTurn(b, [x], y);
    OneMoreTurn(b, [x] + [y], z);
    DeletedB(Dealt(b, x));
    assert [] + [x] == [x];
    var b1 := TurnsRun(b, [x]);
    AddedC(Dealt(b1, y));
    var b2 := TurnsRun(b, [x] + [y]);
    CleanC();
    assert b2.entries[1].tags == {};
    DeletedNothing(Dealt(b2, z));
    assert [x] + [y] + [z] == OneScript();
  }

  lemma PushSucceeds()
    ensures ReplaceEntries(OneEntry(), OnePush()).Ok? && ReplaceEntries(OneEntry(), OnePush()).value.entries == WithC(2)
  {
    OneScriptFits();
    PushNormalForm(OneEntry(), OnePush());
    PushedC();
  }

  /** With a table that hands out the largest id in use plus one, the new peer of this push gets another
      row id than in the script, 2 instead of 1: equal content is all that can be had. */
  lemma NewIdsDiffer()
    ensures Lists(OneEntry(), OnePush(), ["B"], [], []) && AllFresh(OneEntry(), OneScript())
    ensures Ops(OneScript()) == Script(OneEntry(), OnePush(), ["B"], [], [])
    ensures ReplaceEntries(OneEntry(), OnePush()).Ok? && ReplaceEntries(OneEntry(), OnePush()).value.entries == WithC(2)
    ensures TurnsRun(OneEntry(), OneScript()).entries == WithC(1)
  {
    OneScriptFits();
    PushSucceeds();
    ScriptedC();
  }
}
