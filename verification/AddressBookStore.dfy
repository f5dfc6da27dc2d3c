/** The address-book service as it runs: tables updated in place, row by row. */
module AddressBookStore {
  import opened Common
  import opened Text
  import opened TagColors
  import opened AddressBook
  import opened AddressBookRuns
  import opened AddressBookPush

  lemma KeepTagsSame(b: Book, kept: iset<string>, other: iset<string>)
    requires forall n :: n in TagNames(b) ==> (n in kept <==> n in other)
    ensures KeepTags(b, kept) == KeepTags(b, other)
  {
    assert forall t :: t in b.tags ==> b.tags[t].name in TagNames(b);
    assert KeepTags(b, kept).tags == KeepTags(b, other).tags;
  }

  lemma UpdateOneRow(b: Book, e: nat, data: PeerData)
    requires e in b.entries && forall d :: d in b.entries && b.entries[d].rid == b.entries[e].rid ==> d == e
    ensures UpdateRow(b, b.entries[e].rid, data) == b.(entries := b.entries[e := Updated(b, b.entries[e], data)])
  {
    assert UpdateRow(b, b.entries[e].rid, data).entries == b.entries[e := Updated(b, b.entries[e], data)];
  }

  lemma RenameOneRow(b: Book, t: nat, from: Option<string>, to: Option<string>)
    requires UniqueNames(b) && t in b.tags && CleanTagName(from) == Some(b.tags[t].name) && CleanTagName(to).Some?
    requires CleanTagName(to) == CleanTagName(from) || CleanTagName(to).value !in TagNames(b)
    ensures RenameTag(b, from, to) == Ok(b.(tags := b.tags[t := b.tags[t].(name := CleanTagName(to).value)]))
  {
    assert b.tags[t].name in TagNames(b);
    assert RenameTag(b, from, to).value.tags == b.tags[t := b.tags[t].(name := CleanTagName(to).value)];
  }

  /** A request came to an end: what it did and what it answered are what `spec` says, and a
      request that failed has left the book alone. */
  ghost predicate Did(before: Book, after: Book, spec: Result<Book, Error>, r: Result<nat, Error>) {
    match spec
    case Ok(b) => r.Ok? && after == b
    case Err(e) => r == Err(e) && after == before
  }

  lemma RecolorOneRow(b: Book, t: nat, color: int)
    requires UniqueNames(b) && t in b.tags
    ensures Recolor(b, map[b.tags[t].name := color]) == b.(tags := b.tags[t := b.tags[t].(color := color)])
  {
    assert Recolor(b, map[b.tags[t].name := color]).tags == b.tags[t := b.tags[t].(color := color)];
  }

  /** The book with one entry's row brought up to date. */
  ghost function WithRow(b: Book, e: nat, data: PeerData): Book {
    if e in b.entries then b.(entries := b.entries[e := Updated(b, b.entries[e], data)]) else b
  }

  lemma UpsertRow(b: Book, e: nat, data: PeerData)
    requires Consistent(b) && e in b.entries && CleanId(data.id) == Some(b.entries[e].rid)
    ensures var b1 := EnsureTags(b, PeerTagNames(data), map[]);
            && AddPeer(b, data) == Ok(WithRow(b1, e, data))
            && UpdatePeer(b, data) == Ok(WithRow(b1, e, data))
  {
    var b1 := EnsureTags(b, PeerTagNames(data), map[]);
    EnsureTagsFacts(b, PeerTagNames(data), map[]);
    assert b1.entries[e].rid in Rids(b1);
    assert b.entries[e].rid in Rids(b);
    UpdateOneRow(b1, e, data);
  }

  lemma InsertedRow(b: Book, rid: string, data: PeerData)
    requires Consistent(b) && rid !in Rids(b) && CleanId(data.id) == Some(rid)
    ensures var c := b.(entries := b.entries[b.nextEntry := Entry(rid, map[], {})], nextEntry := b.nextEntry + 1);
            AddPeer(b, data) == Ok(WithRow(EnsureTags(c, PeerTagNames(data), map[]), b.nextEntry, data))
  {
    var c := b.(entries := b.entries[b.nextEntry := Entry(rid, map[], {})], nextEntry := b.nextEntry + 1);
    var names := PeerTagNames(data);
    EnsureTagsFrame(b, c, names, map[]);
    EnsureTagsFrame(b, b, names, map[]);
    var b1, c1 := EnsureTags(b, names, map[]), EnsureTags(c, names, map[]);
    assert LinkIds(b1, names) == LinkIds(c1, names);
    assert Rids(b1) == Rids(b);
    var newRow := Entry(rid, map[], {});
    assert c1.entries[b.nextEntry] == newRow;
    assert Updated(c1, newRow, data) == Updated(b1, newRow, data);
    assert WithRow(c1, b.nextEntry, data).entries == InsertRow(b1, rid, data).entries;
  }

  /** Creating tags neither reads nor writes entries. */
  lemma {:induction false} EnsureTagsFrame(b: Book, c: Book, names: seq<string>, colors: map<string, int>)
    requires c.tags == b.tags && c.nextTag == b.nextTag
    ensures EnsureTags(c, names, colors).tags == EnsureTags(b, names, colors).tags
    ensures EnsureTags(c, names, colors).nextTag == EnsureTags(b, names, colors).nextTag
    ensures EnsureTags(c, names, colors).entries == c.entries
    ensures EnsureTags(c, names, colors).nextEntry == c.nextEntry
    ensures EnsureTags(c, names, colors).personal == c.personal
  {
    if names != [] {
      EnsureTagsFrame(b, c, DropLast(names), colors);
    }
  }

  lemma FoundLinks(b: Book, names: seq<string>, found: map<string, nat>)
    requires UniqueNames(b) && Elements(names) <= found.Keys
    requires forall n :: n in found ==> found[n] in b.tags && b.tags[found[n]].name == n
    ensures (set n | n in names :: found[n]) == LinkIds(b, names)
  {
    var links := set n | n in names :: found[n];
    forall t | t in links ensures t in LinkIds(b, names) {
      var n :| n in names && found[n] == t;
    }
    forall t | t in LinkIds(b, names) ensures t in links {
      var n := b.tags[t].name;
      assert n in Elements(names);
    }
  }

  function Sent(data: map<Field, Option<string>>, some: set<Field>): map<Field, Option<string>> {
    map f | f in data && f in some :: data[f]
  }

  lemma SetOneField(
      personal: bool, fields: map<Field, string>, data: map<Field, Option<string>>, done: set<Field>, f: Field)
    requires f !in done
    ensures var r := ApplyFields(personal, fields, Sent(data, done));
            ApplyFields(personal, fields, Sent(data, done + {f})) ==
            if f in data && Settable(personal, f) then SetField(r, f, data[f]) else r
  {
    var r, s := ApplyFields(personal, fields, Sent(data, done)), ApplyFields(personal, fields, Sent(data, done + {f}));
    var goal := if f in data && Settable(personal, f) then SetField(r, f, data[f]) else r;
    forall g ensures Get(s, g) == Get(goal, g) {
      AfterSent(personal, fields, data, done, g);
      AfterSent(personal, fields, data, done + {f}, g);
      if f in data { GetSetField(r, f, data[f], g); }
    }
    SameFields(s, goal);
  }

  lemma AfterSent(
      personal: bool, fields: map<Field, string>, data: map<Field, Option<string>>, done: set<Field>, g: Field)
    ensures Get(ApplyFields(personal, fields, Sent(data, done)), g) ==
            if g in done then FieldAfter(personal, fields, data, g) else Get(fields, g)
  {
    ApplyFieldsGet(personal, fields, Sent(data, done), g);
  }

  lemma NothingSent(personal: bool, fields: map<Field, string>, data: map<Field, Option<string>>)
    ensures ApplyFields(personal, fields, Sent(data, {})) == fields
    ensures Elements(TEXT_FIELDS[..0]) == {}
  {
    forall g ensures Get(ApplyFields(personal, fields, Sent(data, {})), g) == Get(fields, g) {
      AfterSent(personal, fields, data, {}, g);
    }
    SameFields(ApplyFields(personal, fields, Sent(data, {})), fields);
  }

  lemma GetSetField(fields: map<Field, string>, f: Field, value: Option<string>, g: Field)
    ensures Get(SetField(fields, f, value), g) == if g == f then Clip(value, Limit(f)) else Get(fields, g)
  {
  }

  /** The text columns of a row, set one field at a time from what the client sent. */
  method MergeFields(personal: bool, fields: map<Field, string>, data: map<Field, Option<string>>)
    returns (r: map<Field, string>)
    ensures r == ApplyFields(personal, fields, data)
  {
    r := fields;
    NothingSent(personal, fields, data);
    var i := 0;
    while i < |TEXT_FIELDS|
      invariant 0 <= i <= |TEXT_FIELDS|
      invariant r == ApplyFields(personal, fields, Sent(data, Elements(TEXT_FIELDS[..i])))
    {
      var f := TEXT_FIELDS[i];
      TextField(i);
      SetOneField(personal, fields, data, Elements(TEXT_FIELDS[..i]), f);
      if f in data {
        r := SetField(r, f, data[f]);
      }
      i := i + 1;
    }
    AllFields();
    assert TEXT_FIELDS[..i] == TEXT_FIELDS;
    SetOneField(personal, fields, data, Elements(TEXT_FIELDS), Hash);
    if Hash in data && personal {
      r := SetField(r, Hash, data[Hash]);
    }
    assert Sent(data, Elements(TEXT_FIELDS) + {Hash}) == data;
  }

  lemma TextField(i: nat)
    requires i < |TEXT_FIELDS|
    ensures TEXT_FIELDS[i] !in Elements(TEXT_FIELDS[..i]) && TEXT_FIELDS[i] != Hash
    ensures Elements(TEXT_FIELDS[..i + 1]) == Elements(TEXT_FIELDS[..i]) + {TEXT_FIELDS[i]}
  {
    assert TEXT_FIELDS[..i + 1] == TEXT_FIELDS[..i] + [TEXT_FIELDS[i]];
  }

  lemma AllFields()
    ensures Hash !in Elements(TEXT_FIELDS)
    ensures forall f: Field :: f in Elements(TEXT_FIELDS) + {Hash}
  {
    forall f: Field ensures f in TEXT_FIELDS || f == Hash {
      match f
      case Username => assert TEXT_FIELDS[0] == f;
      case Hostname => assert TEXT_FIELDS[1] == f;
      case Platform => assert TEXT_FIELDS[2] == f;
      case Alias => assert TEXT_FIELDS[3] == f;
      case Note => assert TEXT_FIELDS[4] == f;
      case Hash =>
    }
  }

  lemma UpdatePeerKeeps(b: Book, data: PeerData)
    requires Consistent(b) && UpdatePeer(b, data).Ok?
    ensures Consistent(UpdatePeer(b, data).value)
  {
    ApplyConsistent(b, OpUpdatePeer(data));
  }

  lemma RenameTagKeeps(b: Book, from: Option<string>, to: Option<string>)
    requires Consistent(b) && RenameTag(b, from, to).Ok?
    ensures Consistent(RenameTag(b, from, to).value)
  {
    ApplyConsistent(b, OpRenameTag(from, to));
  }

  /** Goes through the rows of a table and deletes the doomed ones. */
  method DeleteWhere<R>(rows: map<nat, R>, doomed: R -> bool) returns (left: map<nat, R>, deleted: nat)
    ensures left == map k | k in rows && !doomed(rows[k]) :: rows[k]
    ensures deleted == |rows| - |left|
  {
    left, deleted := rows, 0;
    var todo := rows.Keys;
    while todo != {}
      invariant todo <= left.Keys <= rows.Keys
      invariant forall k :: k in rows ==> (k in left <==> k in todo || !doomed(rows[k]))
      invariant forall k :: k in left ==> left[k] == rows[k]
      invariant deleted == |rows| - |left|
      decreases todo
    {
      var k :| k in todo;
      if doomed(left[k]) {
        ghost var was := left;
        left := left - {k};
        assert was.Keys == left.Keys + {k};
        deleted := deleted + 1;
      }
      todo := todo - {k};
    }
  }

  /** Setting the columns, then creating the tags, then linking them, is the whole update. */
  lemma UpdateInParts(b: Book, e: nat, data: PeerData)
    requires Consistent(b) && e in b.entries && data.tags.Some?
    ensures var names := PeerTagNames(data);
            var filled := b.entries[e].(fields := ApplyFields(b.personal, b.entries[e].fields, data.fields));
            var b2 := b.(entries := b.entries[e := filled]);
            var b3 := EnsureTags(b2, names, map[]);
            && Consistent(b2) && Consistent(b3) && e in b3.entries && Elements(names) <= TagNames(b3)
            && b3.(entries := b3.entries[e := b3.entries[e].(tags := LinkIds(b3, names))])
               == WithRow(EnsureTags(b, names, map[]), e, data)
  {
    var names := PeerTagNames(data);
    var filled := b.entries[e].(fields := ApplyFields(b.personal, b.entries[e].fields, data.fields));
    var b2 := b.(entries := b.entries[e := filled]);
    assert Consistent(b2);
    EnsureTagsFacts(b2, names, map[]);
    EnsureTagsFrame(b, b2, names, map[]);
    EnsureTagsFrame(b, b, names, map[]);
    assert LinkIds(EnsureTags(b2, names, map[]), names) == LinkIds(EnsureTags(b, names, map[]), names);
  }

  /** `existing` is the snapshot a push looks ids up in: for each id it knows, the one row. */
  ghost predicate Snapshot(b: Book, existing: map<string, nat>) {
    && (forall r :: r in existing ==> existing[r] in b.entries && b.entries[existing[r]].rid == r)
    && (forall e :: e in b.entries && b.entries[e].rid in existing ==> existing[b.entries[e].rid] == e)
  }

  lemma PushOneRow(b: Book, existing: map<string, nat>, data: PeerData)
    requires Snapshot(b, existing) && CountersFresh(b)
    ensures var full := LegacyData(data);
            Snapshot(PushOne(b, existing.Keys, data), existing) && CountersFresh(PushOne(b, existing.Keys, data)) &&
            match CleanId(data.id)
            case None => PushOne(b, existing.Keys, data) == b
            case Some(rid) =>
              if rid in existing then
                PushOne(b, existing.Keys, data) ==
                b.(entries := b.entries[existing[rid] := Updated(b, b.entries[existing[rid]], full)])
              else
                PushOne(b, existing.Keys, data) ==
                b.(entries := b.entries[b.nextEntry := Updated(b, Entry(rid, map[], {}), full)],
                   nextEntry := b.nextEntry + 1)
  {
    if CleanId(data.id).Some? && CleanId(data.id).value in existing {
      UpdateOneRow(b, existing[CleanId(data.id).value], LegacyData(data));
    }
  }

  /** `found` leads from every tag name of the book to its row. */
  ghost predicate Index(b: Book, found: map<string, nat>) {
    found.Keys == TagNames(b) && forall n :: n in found ==> found[n] in b.tags && b.tags[found[n]].name == n
  }

  lemma IndexBuilt(b: Book, found: map<string, nat>)
    requires UniqueNames(b) && found == map t | t in b.tags :: b.tags[t].name := t
    ensures Index(b, found)
  {
  }

  lemma EnsureTagIndexed(b: Book, found: map<string, nat>, name: string, color: int)
    requires Consistent(b) && Index(b, found)
    ensures Consistent(EnsureTag(b, name, color))
    ensures Index(EnsureTag(b, name, color), if name in found then found else found[name := b.nextTag])
  {
    EnsureTagFacts(b, name, color);
  }

  lemma KeepWanted(b: Book, found: map<string, nat>, wanted: seq<string>, doomed: set<string>)
    requires Consistent(b) && Index(b, found)
    requires forall n :: n in doomed <==> n in found && n !in wanted
    ensures var k := KeepTags(b, iset n: string | n !in doomed);
            k == KeepTags(b, iset n: string | n in wanted) && Consistent(k) && Index(k, found - doomed)
  {
    var k := KeepTags(b, iset n: string | n !in doomed);
    KeepTagsSame(b, iset n: string | n !in doomed, iset n: string | n in wanted);
    KeepTagsConsistent(b, iset n: string | n !in doomed);
    forall n | n in (found - doomed).Keys ensures n in TagNames(k) {
      assert found[n] in k.tags && k.tags[found[n]].name == n;
    }
    forall n | n in TagNames(k) ensures n in (found - doomed).Keys {
      var t :| t in k.tags && k.tags[t].name == n;
      assert b.tags[t].name in TagNames(b);
    }
  }

  /** The tag names a push mentions, collected in order. */
  method CollectWanted(push: Push) returns (wanted: seq<string>)
    ensures wanted == PushWanted(push)
  {
    wanted := CleanTagNames(push.tagNames);
    ghost var own := wanted;
    var i := 0;
    while i < |push.entries|
      invariant 0 <= i <= |push.entries|
      invariant wanted == WantedTags(own, push.entries[..i])
    {
      PrefixStep(push.entries, i);
      var names := PeerTagNames(push.entries[i]);
      ghost var before := wanted;
      var j := 0;
      while j < |names|
        invariant 0 <= j <= |names|
        invariant wanted == AddNames(before, names[..j])
      {
        PrefixStep(names, j);
        if names[j] !in wanted {
          wanted := wanted + [names[j]];
        }
        j := j + 1;
      }
      assert names[..j] == names;
      i := i + 1;
    }
    assert push.entries[..i] == push.entries;
  }

  class Store {
    const personal: bool
    var tags: map<nat, TagRow>
    var entries: map<nat, Entry>
    var nextTag: nat
    var nextEntry: nat

    ghost function Book(): Book
      reads this
    {
      AddressBook.Book(personal, tags, entries, nextTag, nextEntry)
    }

    constructor (personal: bool)
      ensures Book() == AddressBook.Book(personal, map[], map[], 0, 0) && Consistent(Book())
    {
      this.personal := personal;
      tags, entries, nextTag, nextEntry := map[], map[], 0, 0;
    }

    // ---- Tags ---------------------------------------------------------------------

    /** Finds or creates the tags of these names; `found` maps every tag name to its row. */
    method EnsureTags(names: seq<string>, colors: map<string, int>) returns (found: map<string, nat>)
      requires Consistent(Book())
      modifies this`tags, this`nextTag
      ensures Book() == AddressBook.EnsureTags(old(Book()), names, colors) && Consistent(Book())
      ensures Index(Book(), found)
    {
      found := IndexTags();
      ghost var b0 := Book();
      var i := 0;
      while i < |names|
        invariant 0 <= i <= |names|
        invariant Book() == AddressBook.EnsureTags(b0, names[..i], colors) && Consistent(Book())
        invariant Index(Book(), found)
      {
        PrefixStep(names, i);
        found := EnsureNamed(names[i], ColorOf(colors, names[i]), found);
        i := i + 1;
      }
      assert names[..i] == names;
    }

    /** The rows of the tags by name. */
    method IndexTags() returns (found: map<string, nat>)
      requires UniqueNames(Book())
      ensures Index(Book(), found)
    {
      found := map t | t in tags :: tags[t].name := t;
      IndexBuilt(Book(), found);
    }

    method EnsureNamed(name: string, color: int, found: map<string, nat>) returns (more: map<string, nat>)
      requires Consistent(Book()) && Index(Book(), found)
      modifies this`tags, this`nextTag
      ensures Book() == EnsureTag(old(Book()), name, color) && Consistent(Book()) && Index(Book(), more)
    {
      EnsureTagIndexed(Book(), found, name, color);
      more := found;
      if name !in found {
        tags := tags[nextTag := TagRow(name, color)];
        more := found[name := nextTag];
        nextTag := nextTag + 1;
      }
    }

    /** Gives every tag named in `colors` its colour. */
    method Recolor(colors: map<string, int>)
      modifies this`tags
      ensures Book() == AddressBook.Recolor(old(Book()), colors)
    {
      ghost var b0 := Book();
      var todo := tags.Keys;
      while todo != {}
        invariant tags.Keys == b0.tags.Keys && todo <= tags.Keys
        invariant forall t :: t in tags ==> tags[t] == if t in todo then b0.tags[t] else Repaint(b0.tags[t], colors)
        decreases todo
      {
        var t :| t in todo;
        if tags[t].name in colors {
          tags := tags[t := tags[t].(color := colors[tags[t].name])];
        }
        todo := todo - {t};
      }
      assert tags == AddressBook.Recolor(b0, colors).tags;
    }

    /** Deletes the tags of these names; on the flush the database drops the links with them. */
    method DeleteTagRows(doomed: set<string>) returns (deleted: nat)
      modifies this`tags, this`entries
      ensures Book() == KeepTags(old(Book()), iset n: string | n !in doomed)
      ensures deleted == |old(tags)| - |tags|
    {
      ghost var b0 := Book();
      var before := tags.Keys;
      tags, deleted := DeleteWhere(tags, (t: TagRow) => t.name in doomed);
      entries := map e | e in entries :: entries[e].(tags := entries[e].tags - (before - tags.Keys));
      assert tags == KeepTags(b0, iset n: string | n !in doomed).tags;
    }

    method AddTag(name: Option<string>, color: RawColor) returns (r: Result<nat, Error>)
      requires Consistent(Book())
      modifies this
      ensures Did(old(Book()), Book(), AddressBook.AddTag(old(Book()), name, color), r) && Consistent(Book())
      ensures r.Ok? ==> r.value in tags && tags[r.value] == TagRow(CleanTagName(name).value, NormalizeColor(color))
    {
      ApplyConsistent(Book(), OpAddTag(name, color));
      var clean := CleanTagName(name);
      if clean.None? { return Err(Invalid); }
      var c := NormalizeColor(color);
      ghost var b0 := Book();
      var found := EnsureTags([clean.value], map[clean.value := c]);
      EnsureTagFacts(b0, clean.value, c);
      var t := found[clean.value];
      RecolorOneRow(Book(), t, c);
      tags := tags[t := tags[t].(color := c)];
      r := Ok(t);
    }

    method RenameTag(old_: Option<string>, new_: Option<string>) returns (r: Result<nat, Error>)
      requires Consistent(Book())
      modifies this`tags
      ensures Did(old(Book()), Book(), AddressBook.RenameTag(old(Book()), old_, new_), r) && Consistent(Book())
    {
      if AddressBook.RenameTag(Book(), old_, new_).Ok? { RenameTagKeeps(Book(), old_, new_); }
      var from, to := CleanTagName(old_), CleanTagName(new_);
      if from.None? || to.None? { return Err(Invalid); }
      var byName := map t | t in tags :: tags[t].name := t;
      if from.value !in byName { return Err(NotFound); }
      if to.value != from.value && to.value in byName { return Err(Conflict); }
      var t := byName[from.value];
      RenameOneRow(Book(), t, old_, new_);
      tags := tags[t := tags[t].(name := to.value)];
      r := Ok(t);
    }

    method SetTagColor(name: Option<string>, color: RawColor) returns (r: Result<nat, Error>)
      requires Consistent(Book())
      modifies this`tags
      ensures Did(old(Book()), Book(), AddressBook.SetTagColor(old(Book()), name, color), r) && Consistent(Book())
    {
      ApplyConsistent(Book(), OpSetTagColor(name, color));
      var clean := CleanTagName(name);
      if clean.None? { return Err(Invalid); }
      if t :| t in tags && tags[t].name == clean.value {
        RecolorOneRow(Book(), t, NormalizeColor(color));
        tags := tags[t := tags[t].(color := NormalizeColor(color))];
        r := Ok(t);
      } else {
        r := Err(NotFound);
      }
    }

    method DeleteTags(names: seq<Option<string>>) returns (deleted: nat)
      requires Consistent(Book())
      modifies this`tags, this`entries
      ensures Book() == AddressBook.DeleteTags(old(Book()), names) && Consistent(Book())
      ensures deleted == |old(tags)| - |tags|
    {
      ApplyConsistent(Book(), OpDeleteTags(names));
      var wanted := set n | n in CleanTagNames(names);
      KeepTagsSame(Book(), iset n: string | n !in wanted, iset n: string | n !in CleanTagNames(names));
      deleted := DeleteTagRows(wanted);
    }

    // ---- Entries --------------------------------------------------------------------

    /** Sets only the fields present in `data`. */
    method ApplyFields(e: nat, data: PeerData)
      requires Consistent(Book()) && e in entries
      modifies this
      ensures Book() == WithRow(AddressBook.EnsureTags(old(Book()), PeerTagNames(data), map[]), e, data)
    {
      ghost var b0 := Book();
      var fields := MergeFields(personal, entries[e].fields, data.fields);
      entries := entries[e := entries[e].(fields := fields)];
      if data.tags.Some? {
        UpdateInParts(b0, e, data);
        var names := CleanTagNames(data.tags.value);
        var found := EnsureTags(names, map[]);
        FoundLinks(Book(), names, found);
        entries := entries[e := entries[e].(tags := set n | n in names :: found[n])];
      }
    }

    method InsertPeer(rid: string, data: PeerData) returns (e: nat)
      requires Consistent(Book()) && rid !in Rids(Book()) && CleanId(data.id) == Some(rid)
      modifies this
      ensures AddressBook.AddPeer(old(Book()), data) == Ok(Book())
    {
      InsertedRow(Book(), rid, data);
      e := nextEntry;
      entries, nextEntry := entries[e := Entry(rid, map[], {})], nextEntry + 1;
      ApplyFields(e, data);
    }

    method AddPeer(data: PeerData) returns (r: Result<nat, Error>)
      requires Consistent(Book())
      modifies this
      ensures Did(old(Book()), Book(), AddressBook.AddPeer(old(Book()), data), r) && Consistent(Book())
    {
      ApplyConsistent(Book(), OpAddPeer(data));
      var id := CleanId(data.id);
      if id.None? { return Err(Invalid); }
      if e :| e in entries && entries[e].rid == id.value {
        UpsertRow(Book(), e, data);
        ApplyFields(e, data);
        r := Ok(e);
      } else {
        assert id.value !in Rids(Book());
        var e := InsertPeer(id.value, data);
        r := Ok(e);
      }
    }

    method UpdatePeer(data: PeerData) returns (r: Result<nat, Error>)
      requires Consistent(Book())
      modifies this
      ensures Did(old(Book()), Book(), AddressBook.UpdatePeer(old(Book()), data), r) && Consistent(Book())
    {
      if AddressBook.UpdatePeer(Book(), data).Ok? { UpdatePeerKeeps(Book(), data); }
      var id := CleanId(data.id);
      if id.None? { return Err(Invalid); }
      if e :| e in entries && entries[e].rid == id.value {
        UpsertRow(Book(), e, data);
        ApplyFields(e, data);
        r := Ok(e);
      } else {
        r := Err(NotFound);
      }
    }

    method DeleteEntryRows(ghost kept: iset<string>, doomed: set<string>) returns (deleted: nat)
      requires forall r :: r in Rids(Book()) ==> (r in doomed <==> r !in kept)
      modifies this`entries
      ensures Book() == KeepEntries(old(Book()), kept)
      ensures deleted == |old(entries)| - |entries|
    {
      ghost var b0 := Book();
      entries, deleted := DeleteWhere(entries, (e: Entry) => e.rid in doomed);
      assert forall e :: e in b0.entries ==> b0.entries[e].rid in Rids(b0);
      assert entries == KeepEntries(b0, kept).entries;
    }

    method DeletePeers(ids: seq<Option<string>>) returns (deleted: nat)
      requires Consistent(Book())
      modifies this`entries
      ensures Book() == AddressBook.DeletePeers(old(Book()), ids) && Consistent(Book())
      ensures deleted == |old(entries)| - |entries|
    {
      ApplyConsistent(Book(), OpDeletePeers(ids));
      var wanted := set id | id in ids && id.Some? :: id.value;
      deleted := DeleteEntryRows((iset rid: string | Some(rid) !in ids), wanted);
    }

    // ---- The legacy whole-list push -----------------------------------------------------

    method ReplaceTags(push: Push) returns (found: map<string, nat>)
      requires Consistent(Book())
      modifies this
      ensures Book() == PushTags(old(Book()), push) && Consistent(Book()) && Index(Book(), found)
    {
      var wanted := CollectWanted(push);
      var colors := PushColors(push);
      found := EnsureTags(wanted, colors);
      ghost var b1 := Book();
      Recolor(colors);
      ghost var b2 := Book();
      RecolorFacts(b1, colors);
      assert Index(b2, found);
      var doomed := set n | n in found && n !in wanted;
      KeepWanted(b2, found, wanted, doomed);
      var _ := DeleteTagRows(doomed);
      found := found - doomed;
    }

    /** One pushed peer: updated in place when the snapshot knows its id, added otherwise. */
    method PushPeer(existing: map<string, nat>, found: map<string, nat>, rid: string, data: PeerData)
      requires UniqueNames(Book()) && Snapshot(Book(), existing) && CountersFresh(Book())
      requires CleanId(data.id) == Some(rid)
      requires Index(Book(), found)
      modifies this`entries, this`nextEntry
      ensures Book() == PushOne(old(Book()), existing.Keys, data)
      ensures Snapshot(Book(), existing) && CountersFresh(Book())
    {
      PushOneRow(Book(), existing, data);
      var e := nextEntry;
      var row := Entry(rid, map[], {});
      if rid in existing {
        e := existing[rid];
        row := entries[e];
      } else {
        nextEntry := nextEntry + 1;
      }
      var full := LegacyData(data);
      var fields := MergeFields(personal, row.fields, full.fields);
      var names := PeerTagNames(data);
      assert names == PeerTagNames(full);
      var links := set n | n in names && n in found :: found[n];
      assert links == LinkIds(old(Book()), names) by { PresentLinks(old(Book()), names, found); }
      entries := entries[e := Entry(rid, fields, links)];
    }

    method PushPeers(push: Push, existing: map<string, nat>, found: map<string, nat>) returns (seen: set<string>)
      requires UniqueNames(Book()) && Snapshot(Book(), existing) && CountersFresh(Book()) && Index(Book(), found)
      modifies this`entries, this`nextEntry
      ensures Book() == PushAll(old(Book()), existing.Keys, push.entries)
      ensures Seen(seen, push.entries)
    {
      ghost var b1 := Book();
      seen := {};
      var i := 0;
      while i < |push.entries|
        invariant 0 <= i <= |push.entries|
        invariant Book() == PushAll(b1, existing.Keys, push.entries[..i])
        invariant Snapshot(Book(), existing) && CountersFresh(Book()) && tags == b1.tags
        invariant Seen(seen, push.entries[..i])
      {
        PrefixStep(push.entries, i);
        SeenStep(seen, push.entries, i);
        var id := CleanId(push.entries[i].id);
        if id.Some? {
          seen := seen + {id.value};
          PushPeer(existing, found, id.value, push.entries[i]);
        }
        i := i + 1;
      }
      assert push.entries[..i] == push.entries;
    }

    /** Everything a push writes; the unique constraint has not been checked yet. */
    method Overwrite(push: Push)
      requires Consistent(Book())
      modifies this
      ensures Book() == Overwritten(old(Book()), push)
    {
      ghost var b0 := Book();
      var found := ReplaceTags(push);
      ghost var b1 := Book();
      assert Rids(b1) == Rids(b0) by { TagsPartConsistent(b0, push); }
      var existing := map e | e in entries :: entries[e].rid := e;
      assert existing.Keys == Rids(b0);
      var seen := PushPeers(push, existing, found);
      KnownOrSeen(b1, existing.Keys, push.entries);
      var _ := DeleteEntryRows(PushIds(push.entries), existing.Keys - seen);
    }

    /** The database's check of its unique constraint. */
    method HasUniqueIds() returns (unique: bool)
      ensures unique <==> UniqueRids(Book())
    {
      unique := forall d, e :: d in entries && e in entries && entries[d].rid == entries[e].rid ==> d == e;
    }

    /** The client's whole list replaces the book's. A repeated new id breaks the unique
        constraint on the flush, and the request is rolled back. */
    method ReplaceEntries(push: Push) returns (r: Result<nat, Error>)
      requires Consistent(Book())
      modifies this
      ensures Did(old(Book()), Book(), AddressBook.ReplaceEntries(old(Book()), push), r) && Consistent(Book())
    {
      OverwrittenLive(Book(), push);
      var savedTags, savedEntries, savedNextTag, savedNextEntry := tags, entries, nextTag, nextEntry;
      Overwrite(push);
      var unique := HasUniqueIds();
      if !unique {
        tags, entries, nextTag, nextEntry := savedTags, savedEntries, savedNextTag, savedNextEntry;
        r := Err(Integrity);
      } else {
        r := Ok(|entries|);
      }
    }
  }

  lemma PresentLinks(b: Book, names: seq<string>, found: map<string, nat>)
    requires UniqueNames(b) && found.Keys == TagNames(b)
    requires forall n :: n in found ==> found[n] in b.tags && b.tags[found[n]].name == n
    ensures (set n | n in names && n in found :: found[n]) == LinkIds(b, names)
  {
    forall t | t in LinkIds(b, names) ensures t in (set n | n in names && n in found :: found[n]) {
      assert b.tags[t].name in TagNames(b);
    }
  }

  lemma SeenGrows(entries: seq<PeerData>, i: nat)
    requires i < |entries|
    ensures forall r :: r in PushIds(entries[..i + 1])
                        <==> r in PushIds(entries[..i]) || CleanId(entries[i].id) == Some(r)
  {
    assert entries[..i + 1] == entries[..i] + [entries[i]];
  }

  /** The ids met so far. */
  ghost predicate Seen(seen: set<string>, entries: seq<PeerData>) {
    forall rid :: rid in seen <==> rid in PushIds(entries)
  }

  lemma SeenStep(seen: set<string>, entries: seq<PeerData>, i: nat)
    requires i < |entries| && Seen(seen, entries[..i])
    ensures var id := CleanId(entries[i].id); Seen(if id.Some? then seen + {id.value} else seen, entries[..i + 1])
  {
    SeenGrows(entries, i);
  }

  /** Every id in the book after a push was known before or is one of those pushed. */
  lemma {:induction false} KnownOrSeen(b: Book, known: set<string>, entries: seq<PeerData>)
    requires Rids(b) <= known
    ensures forall r :: r in Rids(PushAll(b, known, entries)) ==> r in known || r in PushIds(entries)
  {
    if entries != [] {
      var init := DropLast(entries);
      KnownOrSeen(b, known, init);
      SeenGrows(entries, |init|);
      assert entries[..|entries|] == entries && entries[..|init|] == init;
      PushOneRids(PushAll(b, known, init), known, Last(entries));
    }
  }

  lemma PushOneRids(b: Book, known: set<string>, data: PeerData)
    ensures forall r :: r in Rids(PushOne(b, known, data)) ==> r in Rids(b) || CleanId(data.id) == Some(r)
  {
    var t := PushOne(b, known, data);
    forall r | r in Rids(t) ensures r in Rids(b) || CleanId(data.id) == Some(r) {
      var e :| e in t.entries && t.entries[e].rid == r;
      assert e in b.entries ==> b.entries[e].rid in Rids(b);
    }
  }
}
