/** One address book as the database keeps it: peers (entries) and tags, each a table of rows
    under its own row ids, with the links from entries to tags. Every operation is given here
    as a function on the whole book; `AddressBookStore` carries the same operations out in
    place. */
module AddressBook {
  import opened Common
  import opened Text
  import opened TagColors

  const MAX_ID_LENGTH: nat := 64
  const MAX_TAG_NAME_LENGTH: nat := 100

  datatype Field = Username | Hostname | Platform | Alias | Note | Hash

  const TEXT_FIELDS: seq<Field> := [Username, Hostname, Platform, Alias, Note]

  function Limit(f: Field): nat {
    match f
    case Username => 150
    case Hostname => 255
    case Platform => 50
    case Alias => 255
    case Note => 500
    case Hash => 255
  }

  datatype TagRow = TagRow(name: string, color: int)

  /** `fields` holds the columns that are set; `tags` the linked tag row ids. */
  datatype Entry = Entry(rid: string, fields: map<Field, string>, tags: set<nat>)

  datatype Book = Book(
    personal: bool,
    tags: map<nat, TagRow>,
    entries: map<nat, Entry>,
    nextTag: nat,
    nextEntry: nat)

  /** A peer as a client sends it. `None` inside stands for a value that is not text; a tag
      list that is not a list reads as an empty one. */
  datatype PeerData = PeerData(
    id: Option<string>,
    fields: map<Field, Option<string>>,
    tags: Option<seq<Option<string>>>)

  /** A legacy push: the client's whole list. */
  datatype Push = Push(
    entries: seq<PeerData>,
    tagNames: seq<Option<string>>,
    tagColors: map<string, RawColor>)

  datatype Error = Invalid | NotFound | Conflict | Integrity

  // ---- Reading a book -------------------------------------------------------

  ghost function TagNames(b: Book): set<string> {
    set t | t in b.tags :: b.tags[t].name
  }

  ghost function Rids(b: Book): set<string> {
    set e | e in b.entries :: b.entries[e].rid
  }

  /** The row ids of the book's tags that carry one of these names. */
  ghost function LinkIds(b: Book, names: seq<string>): set<nat> {
    set t | t in b.tags && b.tags[t].name in names
  }

  ghost predicate UniqueNames(b: Book) {
    forall t, u :: t in b.tags && u in b.tags && b.tags[t].name == b.tags[u].name ==> t == u
  }

  ghost predicate UniqueRids(b: Book) {
    forall d, e :: d in b.entries && e in b.entries && b.entries[d].rid == b.entries[e].rid ==> d == e
  }

  ghost predicate LinksLive(b: Book) {
    forall e :: e in b.entries ==> b.entries[e].tags <= b.tags.Keys
  }

  /** Row ids in use are below the counters that hand them out. */
  ghost predicate CountersFresh(b: Book) {
    && (forall t :: t in b.tags ==> t < b.nextTag)
    && (forall e :: e in b.entries ==> e < b.nextEntry)
  }

  ghost predicate Consistent(b: Book) {
    UniqueNames(b) && UniqueRids(b) && LinksLive(b) && CountersFresh(b)
  }

  // ---- Cleaning input --------------------------------------------------------

  function CleanTagName(value: Option<string>): Option<string> {
    Clip(value, MAX_TAG_NAME_LENGTH)
  }

  function CleanId(value: Option<string>): (r: Option<string>)
  {
    if value.None? then None else
    var t := Trim(value.value);
    if t == [] || |t| > MAX_ID_LENGTH then None else Some(t)
  }

  /** Clean names in order of first appearance. */
  function CleanTagNames(values: seq<Option<string>>): (names: seq<string>)
    ensures Distinct(names)
  {
    if values == [] then [] else
    var before := CleanTagNames(values[..|values| - 1]);
    AddName(before, CleanTagName(values[|values| - 1]))
  }

  function AddName(names: seq<string>, name: Option<string>): (r: seq<string>)
    ensures Distinct(names) ==> Distinct(r)
  {
    if name.None? || name.value in names then names else names + [name.value]
  }

  function AddNames(names: seq<string>, more: seq<string>): (r: seq<string>)
    ensures Distinct(names) ==> Distinct(r)
  {
    if more == [] then names else
    AddName(AddNames(names, more[..|more| - 1]), Some(more[|more| - 1]))
  }

  function PeerTagNames(data: PeerData): seq<string> {
    match data.tags
    case None => []
    case Some(values) => CleanTagNames(values)
  }

  // ---- Tags --------------------------------------------------------------------

  ghost function EnsureTag(b: Book, name: string, color: int): Book {
    if name in TagNames(b) then b
    else b.(tags := b.tags[b.nextTag := TagRow(name, color)], nextTag := b.nextTag + 1)
  }

  function ColorOf(colors: map<string, int>, name: string): int {
    if name in colors then colors[name] else DEFAULT_TAG_COLOR
  }

  /** Makes every one of these names exist, creating the missing ones in order. */
  ghost function EnsureTags(b: Book, names: seq<string>, colors: map<string, int>): Book {
    if names == [] then b else
    EnsureTag(EnsureTags(b, DropLast(names), colors), Last(names), ColorOf(colors, Last(names)))
  }

  function Repaint(row: TagRow, colors: map<string, int>): TagRow {
    if row.name in colors then TagRow(row.name, colors[row.name]) else row
  }

  ghost function Recolor(b: Book, colors: map<string, int>): Book {
    b.(tags := map t | t in b.tags :: Repaint(b.tags[t], colors))
  }

  /** Deletes the tags whose name is not kept, and the links to them. */
  ghost function KeepTags(b: Book, kept: iset<string>): Book {
    var tags := map t | t in b.tags && b.tags[t].name in kept :: b.tags[t];
    var gone := b.tags.Keys - tags.Keys;
    b.(tags := tags,
       entries := map e | e in b.entries :: b.entries[e].(tags := b.entries[e].tags - gone))
  }

  ghost function AddTag(b: Book, name: Option<string>, color: RawColor): Result<Book, Error> {
    match CleanTagName(name)
    case None => Err(Invalid)
    case Some(clean) =>
      var c := NormalizeColor(color);
      Ok(Recolor(EnsureTag(b, clean, c), map[clean := c]))
  }

  ghost function RenameTag(b: Book, old_: Option<string>, new_: Option<string>): Result<Book, Error> {
    var from, to := CleanTagName(old_), CleanTagName(new_);
    if from.None? || to.None? then Err(Invalid)
    else if from.value !in TagNames(b) then Err(NotFound)
    else if to.value != from.value && to.value in TagNames(b) then Err(Conflict)
    else Ok(b.(tags := map t | t in b.tags ::
                         if b.tags[t].name == from.value then b.tags[t].(name := to.value) else b.tags[t]))
  }

  ghost function SetTagColor(b: Book, name: Option<string>, color: RawColor): Result<Book, Error> {
    match CleanTagName(name)
    case None => Err(Invalid)
    case Some(clean) =>
      if clean !in TagNames(b) then Err(NotFound)
      else Ok(Recolor(b, map[clean := NormalizeColor(color)]))
  }

  ghost function DeleteTags(b: Book, names: seq<Option<string>>): Book {
    KeepTags(b, iset n: string | n !in CleanTagNames(names))
  }

  // ---- Entries -------------------------------------------------------------------

  /** Whether a client may set this field: `hash` only in a personal book. */
  predicate Settable(personal: bool, f: Field) {
    f != Hash || personal
  }

  function SetField(fields: map<Field, string>, f: Field, value: Option<string>): map<Field, string> {
    match Clip(value, Limit(f))
    case None => fields - {f}
    case Some(text) => fields[f := text]
  }

  function Get(fields: map<Field, string>, f: Field): Option<string> {
    if f in fields then Some(fields[f]) else None
  }

  function FieldAfter(
      personal: bool, fields: map<Field, string>, data: map<Field, Option<string>>, f: Field): Option<string> {
    if f in data && Settable(personal, f) then Clip(data[f], Limit(f)) else Get(fields, f)
  }

  /** Only the fields present in `data` change. */
  function ApplyFields(
      personal: bool, fields: map<Field, string>, data: map<Field, Option<string>>): map<Field, string> {
    map f | f in fields.Keys + data.Keys && FieldAfter(personal, fields, data, f).Some?
      :: FieldAfter(personal, fields, data, f).value
  }

  lemma ApplyFieldsGet(personal: bool, fields: map<Field, string>, data: map<Field, Option<string>>, f: Field)
    ensures Get(ApplyFields(personal, fields, data), f) == FieldAfter(personal, fields, data, f)
  {
  }

  lemma SameFields(r: map<Field, string>, s: map<Field, string>)
    requires forall f :: Get(r, f) == Get(s, f)
    ensures r == s
  {
    assert forall f :: f in r ==> Get(r, f).Some? && Get(s, f).Some?;
    assert forall f :: f in s ==> Get(s, f).Some? && Get(r, f).Some?;
  }

  ghost function Updated(b: Book, e: Entry, data: PeerData): Entry {
    var fields := ApplyFields(b.personal, e.fields, data.fields);
    Entry(e.rid, fields, if data.tags.None? then e.tags else LinkIds(b, PeerTagNames(data)))
  }

  /** Updates the entries with this id in place. */
  ghost function UpdateRow(b: Book, rid: string, data: PeerData): Book {
    b.(entries := map e | e in b.entries ::
                    if b.entries[e].rid == rid then Updated(b, b.entries[e], data) else b.entries[e])
  }

  ghost function InsertRow(b: Book, rid: string, data: PeerData): Book {
    b.(entries := b.entries[b.nextEntry := Updated(b, Entry(rid, map[], {}), data)],
       nextEntry := b.nextEntry + 1)
  }

  ghost function Upsert(b: Book, rid: string, data: PeerData): Book {
    if rid in Rids(b) then UpdateRow(b, rid, data) else InsertRow(b, rid, data)
  }

  /** Adding an id that is already in the book updates it in place. */
  ghost function AddPeer(b: Book, data: PeerData): Result<Book, Error> {
    match CleanId(data.id)
    case None => Err(Invalid)
    case Some(rid) => Ok(Upsert(EnsureTags(b, PeerTagNames(data), map[]), rid, data))
  }

  ghost function UpdatePeer(b: Book, data: PeerData): Result<Book, Error> {
    match CleanId(data.id)
    case None => Err(Invalid)
    case Some(rid) =>
      if rid !in Rids(b) then Err(NotFound)
      else Ok(UpdateRow(EnsureTags(b, PeerTagNames(data), map[]), rid, data))
  }

  ghost function KeepEntries(b: Book, kept: iset<string>): Book {
    b.(entries := map e | e in b.entries && b.entries[e].rid in kept :: b.entries[e])
  }

  ghost function DeletePeers(b: Book, ids: seq<Option<string>>): Book {
    KeepEntries(b, iset rid: string | Some(rid) !in ids)
  }

  // ---- The legacy whole-list push ---------------------------------------------------

  /** Every tag name the push mentions, in its own list first and then peer by peer. */
  function WantedTags(names: seq<string>, entries: seq<PeerData>): (r: seq<string>)
    ensures Distinct(names) ==> Distinct(r)
  {
    if entries == [] then names else
    AddNames(WantedTags(names, entries[..|entries| - 1]), PeerTagNames(entries[|entries| - 1]))
  }

  function PushWanted(push: Push): (r: seq<string>)
    ensures Distinct(r)
  {
    WantedTags(CleanTagNames(push.tagNames), push.entries)
  }

  function PushColors(push: Push): map<string, int> {
    map name | name in push.tagColors :: NormalizeColor(push.tagColors[name])
  }

  /** The ids the push keeps. */
  ghost function PushIds(entries: seq<PeerData>): iset<string> {
    iset data, rid | data in entries && CleanId(data.id) == Some(rid) :: rid
  }

  const LEGACY_FIELDS: set<Field> := {Username, Hostname, Platform, Alias, Hash}

  /** A push always carries the same five fields; one that is missing clears the stored value. */
  function LegacyData(data: PeerData): PeerData {
    PeerData(
      data.id,
      map f | f in LEGACY_FIELDS :: if f in data.fields then data.fields[f] else None,
      Some(if data.tags.None? then [] else data.tags.value))
  }

  /** One pushed peer. Whether it is new is decided by `known`, the ids in the book when the
      loop started: rows created by the loop itself are not looked up again. */
  ghost function PushOne(b: Book, known: set<string>, data: PeerData): Book {
    match CleanId(data.id)
    case None => b
    case Some(rid) =>
      if rid in known then UpdateRow(b, rid, LegacyData(data)) else InsertRow(b, rid, LegacyData(data))
  }

  ghost function PushAll(b: Book, known: set<string>, entries: seq<PeerData>): Book {
    if entries == [] then b else PushOne(PushAll(b, known, DropLast(entries)), known, Last(entries))
  }

  /** The tags part of a push: create, recolour, delete the ones it does not mention. */
  ghost function PushTags(b: Book, push: Push): Book {
    var wanted, colors := PushWanted(push), PushColors(push);
    KeepTags(Recolor(EnsureTags(b, wanted, colors), colors), iset n: string | n in wanted)
  }

  /** Everything a push writes, before the database checks its unique constraint. */
  ghost function Overwritten(b: Book, push: Push): Book {
    var b1 := PushTags(b, push);
    KeepEntries(PushAll(b1, Rids(b), push.entries), PushIds(push.entries))
  }

  ghost function ReplaceEntries(b: Book, push: Push): Result<Book, Error> {
    var r := Overwritten(b, push);
    if UniqueRids(r) then Ok(r) else Err(Integrity)
  }
}
