/** Reading a personal book in the legacy envelope and pushing that envelope straight back. */
module AddressBookRoundTrip {
  import opened Common
  import opened Text
  import opened TagColors
  import opened AddressBook
  import opened AddressBookRuns
  import opened AddressBookPush

  const WIRE_FIELDS: set<Field> := {Username, Hostname, Platform, Alias, Note}

  /** A list, in some order, of exactly these names. */
  ghost predicate ListsNames(list: seq<Option<string>>, names: set<string>) {
    None !in list && forall n :: Some(n) in list <==> n in names
  }

  ghost function LinkedNames(b: Book, e: Entry): set<string> {
    set t | t in e.tags && t in b.tags :: b.tags[t].name
  }

  /** A peer as a client reads it: unset fields are empty text, tags are names. */
  ghost predicate PeerView(b: Book, e: Entry, data: PeerData) {
    && data.id == Some(e.rid)
    && data.fields == (map f | f in WIRE_FIELDS + (if b.personal then {Hash} else {}) ::
                         Some(if f in e.fields then e.fields[f] else ""))
    && data.tags.Some? && ListsNames(data.tags.value, LinkedNames(b, e))
  }

  /** The legacy read: all tag names, all peers (`rows` gives the order), all colours. */
  ghost predicate IsEnvelope(b: Book, push: Push, rows: seq<nat>) {
    && ListsNames(push.tagNames, TagNames(b))
    && push.tagColors.Keys == TagNames(b)
    && (forall t :: t in b.tags ==> push.tagColors[b.tags[t].name] == Number(b.tags[t].color))
    && Distinct(rows) && Elements(rows) == b.entries.Keys
    && |push.entries| == |rows|
    && forall i :: 0 <= i < |rows| ==> PeerView(b, b.entries[rows[i]], push.entries[i])
  }

  /** The names of these tag rows, as a list. */
  method NamesOf(b: Book, ids: set<nat>) returns (list: seq<Option<string>>)
    requires ids <= b.tags.Keys
    ensures ListsNames(list, set t | t in ids && t in b.tags :: b.tags[t].name)
  {
    list := [];
    var todo := ids;
    while todo != {}
      invariant todo <= ids
      invariant ListsNames(list, set t | t in ids - todo && t in b.tags :: b.tags[t].name)
      decreases todo
    {
      var t :| t in todo;
      ghost var before := set u | u in ids - todo && u in b.tags :: b.tags[u].name;
      list := list + [Some(b.tags[t].name)];
      todo := todo - {t};
      ghost var after := set u | u in ids - todo && u in b.tags :: b.tags[u].name;
      assert after == before + {b.tags[t].name} by {
        assert ids - todo == (ids - (todo + {t})) + {t};
      }
    }
    assert ids - todo == ids;
  }

  /** A peer in the client's wire format. */
  method PeerToClient(b: Book, e: Entry) returns (data: PeerData)
    requires e.tags <= b.tags.Keys
    ensures PeerView(b, e, data)
  {
    var names := NamesOf(b, e.tags);
    var wire := WIRE_FIELDS + (if b.personal then {Hash} else {});
    data := PeerData(Some(e.rid), map f | f in wire :: Some(if f in e.fields then e.fields[f] else ""), Some(names));
  }

  /** All peers in some order, which `rows` gives. */
  method ListPeers(b: Book) returns (peers: seq<PeerData>, ghost rows: seq<nat>)
    requires Consistent(b)
    ensures Distinct(rows) && Elements(rows) == b.entries.Keys && |peers| == |rows|
    ensures forall i :: 0 <= i < |rows| ==> rows[i] in b.entries && PeerView(b, b.entries[rows[i]], peers[i])
  {
    peers := [];
    rows := [];
    var todo := b.entries.Keys;
    while todo != {}
      invariant todo <= b.entries.Keys && |peers| == |rows|
      invariant Distinct(rows) && Elements(rows) == b.entries.Keys - todo
      invariant forall i :: 0 <= i < |rows| ==> rows[i] in b.entries && PeerView(b, b.entries[rows[i]], peers[i])
      decreases todo
    {
      var e :| e in todo;
      var peer := PeerToClient(b, b.entries[e]);
      assert e !in Elements(rows);
      ElementsAppend(rows, e);
      peers := peers + [peer];
      rows := rows + [e];
      todo := todo - {e};
    }
  }

  ghost predicate Envelope(b: Book, push: Push) {
    exists rows :: IsEnvelope(b, push, rows)
  }

  /** What `GET /api/ab` answers with. */
  method BuildEnvelope(b: Book) returns (push: Push)
    requires Consistent(b)
    ensures Envelope(b, push)
  {
    var names := NamesOf(b, b.tags.Keys);
    var colors := map t | t in b.tags :: b.tags[t].name := Number(b.tags[t].color);
    var peers, rows := ListPeers(b);
    push := Push(peers, names, colors);
    assert colors.Keys == TagNames(b) by {
      forall n | n in TagNames(b) ensures n in colors {
        var t :| t in b.tags && b.tags[t].name == n;
      }
    }
    assert (set t | t in b.tags.Keys && t in b.tags :: b.tags[t].name) == TagNames(b);
    assert IsEnvelope(b, push, rows);
  }

  // ---- What the book must look like ---------------------------------------------

  predicate CleanEntryId(rid: string) {
    Trimmed(rid) && 0 < |rid| <= MAX_ID_LENGTH
  }

  ghost predicate CleanFields(personal: bool, e: Entry) {
    forall f :: f in e.fields && f in LEGACY_FIELDS && Settable(personal, f) ==> ClipStable(e.fields[f], Limit(f))
  }

  ghost predicate CleanTags(b: Book) {
    forall t :: t in b.tags ==> ClipStable(b.tags[t].name, MAX_TAG_NAME_LENGTH) && ProperColor(b.tags[t].color)
  }

  ghost predicate CleanEntries(b: Book) {
    forall e :: e in b.entries ==> CleanEntryId(b.entries[e].rid) && CleanFields(b.personal, b.entries[e])
  }

  /** Stored text is trimmed and within its limit, and colours are normalised. */
  ghost predicate StoredClean(b: Book) {
    CleanTags(b) && CleanEntries(b)
  }

  // ---- Names ----------------------------------------------------------------------

  lemma {:induction false} CleanNamesSource(values: seq<Option<string>>, n: string)
    ensures n in CleanTagNames(values) <==> exists v :: v in values && CleanTagName(v) == Some(n)
  {
    if values != [] {
      CleanNamesSource(DropLast(values), n);
      assert values == DropLast(values) + [Last(values)];
    }
  }

  lemma CleanListed(list: seq<Option<string>>, names: set<string>)
    requires ListsNames(list, names) && forall n :: n in names ==> ClipStable(n, MAX_TAG_NAME_LENGTH)
    ensures forall n :: n in CleanTagNames(list) <==> n in names
  {
    forall n ensures n in CleanTagNames(list) <==> n in names {
      CleanNamesSource(list, n);
      ClipFixed(n, MAX_TAG_NAME_LENGTH);
      if v :| v in list && CleanTagName(v) == Some(n) {
        ClipFixed(v.value, MAX_TAG_NAME_LENGTH);
      }
    }
  }

  ghost predicate NamedByPeer(entries: seq<PeerData>, n: string) {
    exists i :: 0 <= i < |entries| && n in PeerTagNames(entries[i])
  }

  lemma {:induction false} WantedSource(names: seq<string>, entries: seq<PeerData>, n: string)
    requires n in WantedTags(names, entries)
    ensures n in names || NamedByPeer(entries, n)
  {
    if entries != [] && n !in names {
      var init := DropLast(entries);
      AddNamesCovers(WantedTags(names, init), PeerTagNames(Last(entries)));
      if n in WantedTags(names, init) {
        WantedSource(names, init, n);
        var i :| 0 <= i < |init| && n in PeerTagNames(init[i]);
        assert entries[i] == init[i];
      } else {
        assert n in PeerTagNames(entries[|entries| - 1]);
      }
    }
  }

  // ---- Clean books come back unchanged -----------------------------------------------

  lemma EnvelopeWanted(b: Book, push: Push, rows: seq<nat>)
    requires IsEnvelope(b, push, rows) && CleanTags(b)
    ensures forall n :: n in PushWanted(push) <==> n in TagNames(b)
  {
    CleanListed(push.tagNames, TagNames(b));
    WantedCovers(CleanTagNames(push.tagNames), push.entries);
    forall n | n in PushWanted(push) ensures n in TagNames(b) {
      WantedSource(CleanTagNames(push.tagNames), push.entries, n);
      if n !in CleanTagNames(push.tagNames) {
        var i :| 0 <= i < |push.entries| && n in PeerTagNames(push.entries[i]);
        CleanListed(push.entries[i].tags.value, LinkedNames(b, b.entries[rows[i]]));
      }
    }
  }

  lemma EnvelopeTags(b: Book, push: Push, rows: seq<nat>)
    requires IsEnvelope(b, push, rows) && CleanTags(b)
    ensures PushTags(b, push) == b
  {
    EnvelopeWanted(b, push, rows);
    EnsurePresent(b, PushWanted(push), PushColors(push));
    forall t | t in b.tags ensures Repaint(b.tags[t], PushColors(push)) == b.tags[t] {
      assert b.tags[t].name in TagNames(b);
      NormalizeFixed(b.tags[t].color);
    }
    assert Recolor(b, PushColors(push)).tags == b.tags;
    assert forall t :: t in b.tags ==> b.tags[t].name in TagNames(b);
    KeepAllTags(b, iset n: string | n in PushWanted(push));
  }

  lemma KeepAllTags(b: Book, kept: iset<string>)
    requires forall t :: t in b.tags ==> b.tags[t].name in kept
    ensures KeepTags(b, kept) == b
  {
    var k := KeepTags(b, kept);
    assert k.tags == b.tags;
    assert forall s: set<nat> :: s - (b.tags.Keys - k.tags.Keys) == s;
    assert k.entries == b.entries;
  }

  lemma KeepAllEntries(b: Book, kept: iset<string>)
    requires forall e :: e in b.entries ==> b.entries[e].rid in kept
    ensures KeepEntries(b, kept) == b
  {
    assert KeepEntries(b, kept).entries == b.entries;
  }

  lemma ApplyFieldsSame(personal: bool, fields: map<Field, string>, data: map<Field, Option<string>>)
    requires forall f :: f in data && Settable(personal, f) ==>
                           Clip(data[f], Limit(f)) == if f in fields then Some(fields[f]) else None
    ensures ApplyFields(personal, fields, data) == fields
  {
    forall f ensures Get(ApplyFields(personal, fields, data), f) == Get(fields, f) {
      ApplyFieldsGet(personal, fields, data, f);
    }
    SameFields(ApplyFields(personal, fields, data), fields);
  }

  lemma ViewFields(b: Book, e: Entry, data: PeerData)
    requires PeerView(b, e, data) && CleanFields(b.personal, e)
    ensures ApplyFields(b.personal, e.fields, LegacyData(data).fields) == e.fields
  {
    var full := LegacyData(data).fields;
    forall f | f in full && Settable(b.personal, f)
      ensures Clip(full[f], Limit(f)) == if f in e.fields then Some(e.fields[f]) else None
    {
      if f in e.fields { ClipFixed(e.fields[f], Limit(f)); }
    }
    ApplyFieldsSame(b.personal, e.fields, full);
  }

  lemma ViewLinks(b: Book, e: Entry, data: PeerData)
    requires PeerView(b, e, data) && UniqueNames(b) && e.tags <= b.tags.Keys && CleanTags(b)
    ensures LinkIds(b, PeerTagNames(data)) == e.tags
  {
    CleanListed(data.tags.value, LinkedNames(b, e));
  }

  lemma PushOneUnchanged(b: Book, e: nat, data: PeerData)
    requires Consistent(b) && CleanTags(b) && e in b.entries && PeerView(b, b.entries[e], data)
    requires CleanEntryId(b.entries[e].rid) && CleanFields(b.personal, b.entries[e])
    ensures PushOne(b, Rids(b), data) == b
  {
    var rid := b.entries[e].rid;
    TrimFixed(rid);
    assert CleanId(data.id) == Some(rid);
    ViewFields(b, b.entries[e], data);
    ViewLinks(b, b.entries[e], data);
    assert PeerTagNames(LegacyData(data)) == PeerTagNames(data);
    assert UpdateRow(b, rid, LegacyData(data)).entries == b.entries;
  }

  lemma PeerUnchanged(b: Book, push: Push, rows: seq<nat>, k: nat)
    requires Consistent(b) && IsEnvelope(b, push, rows) && StoredClean(b) && k < |rows|
    ensures PushOne(b, Rids(b), push.entries[k]) == b
  {
    assert rows[k] in Elements(rows);
    PushOneUnchanged(b, rows[k], push.entries[k]);
  }

  lemma {:induction false} PushAllUnchanged(b: Book, entries: seq<PeerData>)
    requires forall k :: 0 <= k < |entries| ==> PushOne(b, Rids(b), entries[k]) == b
    ensures PushAll(b, Rids(b), entries) == b
  {
    if entries != [] { PushAllUnchanged(b, DropLast(entries)); }
  }

  lemma RowOf(b: Book, push: Push, rows: seq<nat>, e: nat) returns (i: nat)
    requires IsEnvelope(b, push, rows) && e in b.entries
    ensures i < |rows| == |push.entries| && rows[i] == e && PeerView(b, b.entries[e], push.entries[i])
  {
    assert e in Elements(rows);
    i :| 0 <= i < |rows| && rows[i] == e;
  }

  lemma EnvelopeHasId(b: Book, push: Push, rows: seq<nat>, e: nat)
    requires IsEnvelope(b, push, rows) && e in b.entries && CleanEntryId(b.entries[e].rid)
    ensures b.entries[e].rid in PushIds(push.entries)
  {
    var i := RowOf(b, push, rows, e);
    TrimFixed(b.entries[e].rid);
    assert push.entries[i] in push.entries;
  }

  lemma NothingToDo(b: Book, push: Push)
    requires UniqueRids(b) && PushTags(b, push) == b && PushAll(b, Rids(b), push.entries) == b
    requires forall e :: e in b.entries ==> b.entries[e].rid in PushIds(push.entries)
    ensures ReplaceEntries(b, push) == Ok(b)
  {
    KeepAllEntries(b, PushIds(push.entries));
  }

  /** A clean book is returned row by row. */
  lemma CleanBookComesBack(b: Book, push: Push, rows: seq<nat>)
    requires Consistent(b) && IsEnvelope(b, push, rows) && StoredClean(b)
    ensures ReplaceEntries(b, push) == Ok(b)
  {
    EnvelopeTags(b, push, rows);
    forall k | 0 <= k < |push.entries| ensures PushOne(b, Rids(b), push.entries[k]) == b {
      PeerUnchanged(b, push, rows, k);
    }
    PushAllUnchanged(b, push.entries);
    forall e | e in b.entries ensures b.entries[e].rid in PushIds(push.entries) {
      EnvelopeHasId(b, push, rows, e);
    }
    NothingToDo(b, push);
  }

  // ---- ... and only clean books do ------------------------------------------------------

  /** The longest of a finite, non-empty set of names. */
  lemma {:induction false} Longest(names: set<string>) returns (n: string)
    requires names != {}
    ensures n in names && forall m :: m in names ==> |m| <= |n|
  {
    var x :| x in names;
    if names == {x} {
      n := x;
    } else {
      var y := Longest(names - {x});
      n := if |y| > |x| then y else x;
      assert forall m :: m in names ==> m == x || m in names - {x};
    }
  }

  /** The name is what cleaning makes of one of these names. */
  ghost predicate IsClipping(names: set<string>, n: string) {
    exists m :: m in names && CleanTagName(Some(m)) == Some(n)
  }

  /** Clipping only shortens, so a finite set of names that are all clippings of one another
      holds stable names only. */
  lemma ClippingsOfEachOther(names: set<string>)
    requires forall n :: n in names ==> IsClipping(names, n)
    ensures forall n :: n in names ==> ClipStable(n, MAX_TAG_NAME_LENGTH)
  {
    var unstable := set n | n in names && !ClipStable(n, MAX_TAG_NAME_LENGTH);
    if unstable != {} {
      var n := Longest(unstable);
      var m :| m in names && CleanTagName(Some(m)) == Some(n);
      ClipFixed(m, MAX_TAG_NAME_LENGTH);
      ClipFixed(n, MAX_TAG_NAME_LENGTH);
      ClipShortens(m, MAX_TAG_NAME_LENGTH);
      assert false;
    }
  }

  lemma ListedAreClippings(list: seq<Option<string>>, names: set<string>, n: string)
    requires ListsNames(list, names) && n in CleanTagNames(list)
    ensures IsClipping(names, n)
  {
    CleanNamesSource(list, n);
    var v :| v in list && CleanTagName(v) == Some(n);
    assert v.value in names;
  }

  lemma WantedAreClippings(b: Book, push: Push, rows: seq<nat>, n: string)
    requires IsEnvelope(b, push, rows) && n in PushWanted(push)
    ensures IsClipping(TagNames(b), n)
  {
    WantedSource(CleanTagNames(push.tagNames), push.entries, n);
    if n in CleanTagNames(push.tagNames) {
      ListedAreClippings(push.tagNames, TagNames(b), n);
    } else {
      var i :| 0 <= i < |push.entries| && n in PeerTagNames(push.entries[i]);
      ListedAreClippings(push.entries[i].tags.value, LinkedNames(b, b.entries[rows[i]]), n);
    }
  }

  lemma OverwrittenTags(b: Book, push: Push)
    ensures Overwritten(b, push).tags == PushTags(b, push).tags
  {
    PushAllTags(PushTags(b, push), Rids(b), push.entries);
  }

  lemma FixedTagNames(b: Book, push: Push, rows: seq<nat>)
    requires Consistent(b) && IsEnvelope(b, push, rows) && PushTags(b, push).tags == b.tags
    ensures forall n :: n in TagNames(b) ==> ClipStable(n, MAX_TAG_NAME_LENGTH)
  {
    assert TagNames(b) == Elements(PushWanted(push)) by {
      TagsPartConsistent(b, push);
      assert TagNames(b) == TagNames(PushTags(b, push));
    }
    forall n | n in TagNames(b) ensures IsClipping(TagNames(b), n) {
      WantedAreClippings(b, push, rows, n);
    }
    ClippingsOfEachOther(TagNames(b));
  }

  lemma FixedColors(b: Book, push: Push, rows: seq<nat>)
    requires Consistent(b) && IsEnvelope(b, push, rows) && PushTags(b, push).tags == b.tags
    ensures forall t :: t in b.tags ==> ProperColor(b.tags[t].color)
  {
    EnsureTagsFacts(b, PushWanted(push), PushColors(push));
    forall t | t in b.tags ensures ProperColor(b.tags[t].color) {
      assert t in PushTags(b, push).tags;
      assert b.tags[t].name in TagNames(b);
      assert PushTags(b, push).tags[t] == Repaint(b.tags[t], PushColors(push));
      NormalizeFixed(b.tags[t].color);
    }
  }

  lemma FixedIds(b: Book, push: Push)
    requires Overwritten(b, push).entries == b.entries
    ensures forall e :: e in b.entries ==> CleanEntryId(b.entries[e].rid)
  {
    forall e | e in b.entries ensures CleanEntryId(b.entries[e].rid) {
      var r := Overwritten(b, push);
      assert e in r.entries;
      var d :| d in push.entries && CleanId(d.id) == Some(b.entries[e].rid);
    }
  }

  ghost predicate HasFields(b: Book, e: nat, rid: string, fields: map<Field, string>) {
    e in b.entries && e < b.nextEntry && b.entries[e].rid == rid && b.entries[e].fields == fields
  }

  lemma FieldsStep(b: Book, known: set<string>, data: PeerData, e: nat, rid: string, fields: map<Field, string>)
    requires HasFields(b, e, rid, fields) && rid in known
    ensures var r := PushOne(b, known, data);
            && r.personal == b.personal
            && HasFields(r, e, rid,
                         if CleanId(data.id) == Some(rid) then ApplyFields(b.personal, fields, LegacyData(data).fields)
                         else fields)
  {
  }

  /** The fields of one entry after a prefix of the push: set by its own peer and no other. */
  lemma {:induction false} FieldsAfter(b: Book, known: set<string>, entries: seq<PeerData>, e: nat, i: nat, k: nat)
    requires e in b.entries && e < b.nextEntry && i < |entries| && k <= |entries|
    requires b.entries[e].rid in known
    requires forall j :: 0 <= j < |entries| ==> (CleanId(entries[j].id) == Some(b.entries[e].rid) <==> j == i)
    ensures PushAll(b, known, entries[..k]).personal == b.personal
    ensures HasFields(PushAll(b, known, entries[..k]), e, b.entries[e].rid,
                      if i < k then ApplyFields(b.personal, b.entries[e].fields, LegacyData(entries[i]).fields)
                      else b.entries[e].fields)
  {
    if k > 0 {
      PrefixStep(entries, k - 1);
      FieldsAfter(b, known, entries, e, i, k - 1);
      FieldsStep(PushAll(b, known, entries[..k - 1]), known, entries[k - 1], e, b.entries[e].rid,
                 if i < k - 1 then ApplyFields(b.personal, b.entries[e].fields, LegacyData(entries[i]).fields)
                 else b.entries[e].fields);
    }
  }

  lemma OwnPeerOnly(b: Book, push: Push, rows: seq<nat>, i: nat, j: nat)
    requires UniqueRids(b) && IsEnvelope(b, push, rows) && i < |rows| && j < |rows|
    requires forall d :: d in b.entries ==> CleanEntryId(b.entries[d].rid)
    ensures rows[i] in b.entries
    ensures CleanId(push.entries[j].id) == Some(b.entries[rows[i]].rid) <==> j == i
  {
    assert rows[i] in Elements(rows) && rows[j] in Elements(rows);
    TrimFixed(b.entries[rows[j]].rid);
  }

  lemma TagsPartKeepsFields(b: Book, push: Push, e: nat)
    requires Consistent(b) && e in b.entries
    ensures var b1 := PushTags(b, push);
            && b1.personal == b.personal && b1.nextEntry == b.nextEntry
            && e in b1.entries && b1.entries[e].rid == b.entries[e].rid && b1.entries[e].fields == b.entries[e].fields
  {
    EnsureTagsFacts(b, PushWanted(push), PushColors(push));
  }

  lemma FieldsOfResult(b: Book, push: Push, e: nat, i: nat)
    requires Consistent(b) && Overwritten(b, push).entries == b.entries && e in b.entries && i < |push.entries|
    requires forall j :: 0 <= j < |push.entries| ==> (CleanId(push.entries[j].id) == Some(b.entries[e].rid) <==> j == i)
    ensures ApplyFields(b.personal, b.entries[e].fields, LegacyData(push.entries[i]).fields) == b.entries[e].fields
  {
    TagsPartKeepsFields(b, push, e);
    FieldsAfter(PushTags(b, push), Rids(b), push.entries, e, i, |push.entries|);
    assert push.entries[..|push.entries|] == push.entries;
    var p := PushAll(PushTags(b, push), Rids(b), push.entries);
    assert Overwritten(b, push).entries[e] == p.entries[e];
  }

  lemma FixedFieldsOf(b: Book, push: Push, rows: seq<nat>, e: nat)
    requires Consistent(b) && IsEnvelope(b, push, rows) && Overwritten(b, push).entries == b.entries
    requires e in b.entries && forall d :: d in b.entries ==> CleanEntryId(b.entries[d].rid)
    ensures CleanFields(b.personal, b.entries[e])
  {
    var i := RowOf(b, push, rows, e);
    forall j | 0 <= j < |push.entries| ensures CleanId(push.entries[j].id) == Some(b.entries[e].rid) <==> j == i {
      OwnPeerOnly(b, push, rows, i, j);
    }
    FieldsOfResult(b, push, e, i);
    FieldsFixed(b, b.entries[e], push.entries[i]);
  }

  lemma FieldsFixed(b: Book, e: Entry, data: PeerData)
    requires PeerView(b, e, data)
    requires ApplyFields(b.personal, e.fields, LegacyData(data).fields) == e.fields
    ensures CleanFields(b.personal, e)
  {
    var full := LegacyData(data).fields;
    forall f | f in e.fields && f in LEGACY_FIELDS && Settable(b.personal, f)
      ensures ClipStable(e.fields[f], Limit(f))
    {
      assert full[f] == Some(e.fields[f]);
      assert ApplyFields(b.personal, e.fields, full)[f] == Clip(full[f], Limit(f)).value;
      ClipFixed(e.fields[f], Limit(f));
    }
  }

  /** Main result. Pushing a book's own envelope back leaves every row of it as it was exactly
      when the stored text is trimmed and within its limits and the colours are proper,
      whatever order peers and tags were listed in. */
  lemma ReadThenPush(b: Book, push: Push, rows: seq<nat>)
    requires Consistent(b) && IsEnvelope(b, push, rows)
    ensures ReplaceEntries(b, push) == Ok(b) <==> StoredClean(b)
  {
    if StoredClean(b) {
      CleanBookComesBack(b, push, rows);
    }
    if ReplaceEntries(b, push) == Ok(b) {
      FixedTagsClean(b, push, rows);
      FixedEntriesClean(b, push, rows);
    }
  }

  lemma FixedTagsClean(b: Book, push: Push, rows: seq<nat>)
    requires Consistent(b) && IsEnvelope(b, push, rows) && ReplaceEntries(b, push) == Ok(b)
    ensures CleanTags(b)
  {
    OverwrittenTags(b, push);
    FixedTagNames(b, push, rows);
    FixedColors(b, push, rows);
    assert forall t :: t in b.tags ==> b.tags[t].name in TagNames(b);
  }

  lemma FixedEntriesClean(b: Book, push: Push, rows: seq<nat>)
    requires Consistent(b) && IsEnvelope(b, push, rows) && ReplaceEntries(b, push) == Ok(b)
    ensures CleanEntries(b)
  {
    OverwrittenTags(b, push);
    FixedIds(b, push);
    forall e | e in b.entries ensures CleanFields(b.personal, b.entries[e]) {
      FixedFieldsOf(b, push, rows, e);
    }
  }
}
