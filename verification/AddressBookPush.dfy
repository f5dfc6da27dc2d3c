/** The legacy whole-list push refines the per-item protocol: on every book and for every push
    it either meets the database's unique constraint and leaves exactly the book that a script
    of per-item requests leaves, or fails because the push repeats an id that is new. */
module AddressBookPush {
  import opened Common
  import opened Text
  import opened TagColors
  import opened AddressBook
  import opened AddressBookRuns

  // ---- The script -------------------------------------------------------------

  ghost function RawColorOf(push: Push, name: string): RawColor {
    if name in push.tagColors then push.tagColors[name] else Unreadable
  }

  /** "Make every named tag exist." */
  ghost function AddTagOps(have: set<string>, wanted: seq<string>, push: Push): seq<Op> {
    if wanted == [] then [] else
    AddTagOps(have, DropLast(wanted), push) +
    if Last(wanted) in have then [] else [OpAddTag(Some(Last(wanted)), RawColorOf(push, Last(wanted)))]
  }

  /** "Add every pushed peer", with all five fields and its tags. */
  ghost function AddPeerOps(entries: seq<PeerData>): seq<Op> {
    if entries == [] then [] else
    AddPeerOps(DropLast(entries)) +
    if CleanId(Last(entries).id).None? then [] else [OpAddPeer(LegacyData(Last(entries)))]
  }

  ghost function RecolorOps(names: seq<string>, push: Push): seq<Op> {
    if names == [] then [] else
    RecolorOps(DropLast(names), push) + [OpSetTagColor(Some(Last(names)), RawColorOf(push, Last(names)))]
  }

  ghost function Raw(names: seq<string>): seq<Option<string>> {
    seq(|names|, i requires 0 <= i < |names| => Some(names[i]))
  }

  /** What the client would have to send one request at a time: `gone` are the peers the push
      leaves out, `painted` the tags it gives a colour, `stale` the tags it does not mention,
      each listed in any order. */
  ghost function Script(b: Book, push: Push, gone: seq<string>, painted: seq<string>, stale: seq<string>): seq<Op> {
    AddTagOps(TagNames(b), PushWanted(push), push)
    + [OpDeletePeers(Raw(gone))]
    + AddPeerOps(push.entries)
    + RecolorOps(painted, push)
    + [OpDeleteTags(Raw(stale))]
  }

  ghost predicate Lists(b: Book, push: Push, gone: seq<string>, painted: seq<string>, stale: seq<string>) {
    var wanted := Elements(PushWanted(push));
    && (forall r :: r in gone <==> r in Rids(b) && r !in PushIds(push.entries))
    && (forall n :: n in painted <==> n in TagNames(b) + wanted && n in push.tagColors)
    && (forall n :: n in stale <==> n in TagNames(b) && n !in wanted)
  }

  /** The names that go through the per-item requests: new ones, ones given a colour, and ones deleted. */
  ghost predicate SentByName(b: Book, push: Push, n: string) {
    || (n in PushWanted(push) && n !in TagNames(b))
    || ((n in TagNames(b) || n in PushWanted(push)) && n in push.tagColors)
    || (n in TagNames(b) && n !in PushWanted(push))
  }

  /** None of these is cut off at white space, so cleaning it again changes nothing. */
  ghost predicate NamesStable(b: Book, push: Push) {
    forall n :: SentByName(b, push, n) ==> ClipStable(n, MAX_TAG_NAME_LENGTH)
  }

  /** Two pushed peers have the same trimmed id, and the book does not know it yet. */
  ghost predicate RepeatsNewId(known: set<string>, entries: seq<PeerData>) {
    exists i, j :: 0 <= i < j < |entries|
      && CleanId(entries[i].id).Some?
      && CleanId(entries[i].id) == CleanId(entries[j].id)
      && CleanId(entries[i].id).value !in known
  }

  // ---- Pushed peers as upserts -----------------------------------------------------

  ghost function UpsertOne(b: Book, data: PeerData): Book {
    match CleanId(data.id)
    case None => b
    case Some(rid) => Upsert(b, rid, LegacyData(data))
  }

  ghost function UpsertAll(b: Book, entries: seq<PeerData>): Book {
    if entries == [] then b else UpsertOne(UpsertAll(b, DropLast(entries)), Last(entries))
  }

  // ---- Results ----------------------------------------------------------------------

  /** Main result, for a database that hands out no row id twice. A push of a client's whole list
      succeeds exactly when it does not repeat an id the book does not have, and then it leaves the
      same book (fields, row ids, notes, tag rows, colours and links) as the requests of the per-item
      protocol. `AddressBookContent.PushRefinesAnyIds` does without that condition. */
  lemma PushRefinesItems(b: Book, push: Push, gone: seq<string>, painted: seq<string>, stale: seq<string>)
    requires Consistent(b) && NamesStable(b, push) && Lists(b, push, gone, painted, stale)
    ensures ReplaceEntries(b, push) ==
            if RepeatsNewId(Rids(b), push.entries) then Err(Integrity)
            else Ok(Run(b, Script(b, push, gone, painted, stale)))
  {
    if RepeatsNewId(Rids(b), push.entries) {
      RepeatBreaksUnique(b, push);
    } else {
      PushNormalForm(b, push);
      ScriptNormalForm(b, push, gone, painted, stale);
    }
  }

  /** Such a script exists for every book and push. */
  lemma ScriptExists(b: Book, push: Push) returns (gone: seq<string>, painted: seq<string>, stale: seq<string>)
    ensures Lists(b, push, gone, painted, stale)
  {
    var wanted := Elements(PushWanted(push));
    gone := Listing(set r | r in Rids(b) && r !in PushIds(push.entries));
    painted := Listing(set n | n in TagNames(b) + wanted && n in push.tagColors);
    stale := Listing(set n | n in TagNames(b) && n !in wanted);
  }

  lemma RepeatBreaksUnique(b: Book, push: Push)
    requires Consistent(b) && RepeatsNewId(Rids(b), push.entries)
    ensures ReplaceEntries(b, push) == Err(Integrity)
  {
    var b1 := PushTags(b, push);
    TagsPartConsistent(b, push);
    var d, e, rid := TwoNewRows(b1, Rids(b), push.entries);
    assert HoldsRow(Overwritten(b, push), d, rid) && HoldsRow(Overwritten(b, push), e, rid);
  }

  /** What the push computes, with the bulk changes pulled in front of the upserts. */
  lemma PushNormalForm(b: Book, push: Push)
    requires Consistent(b) && !RepeatsNewId(Rids(b), push.entries)
    ensures ReplaceEntries(b, push) ==
            Ok(UpsertAll(KeepEntries(PushTags(b, push), PushIds(push.entries)), push.entries))
  {
    var b1, kept := PushTags(b, push), PushIds(push.entries);
    TagsPartConsistent(b, push);
    PushAllIsUpsertAll(b1, Rids(b), push.entries);
    KeepEntriesCommutesAll(b1, push.entries, kept);
    KeepEntriesConsistent(b1, kept);
    UpsertAllRids(KeepEntries(b1, kept), push.entries);
  }

  /** Stable names are needed: an empty book and a push of nothing but one tag name. The push
      clips the name once and stores it; the per-item request for the stored name clips it again. */
  lemma OneTagPush(raw: string)
    requires CleanTagName(Some(raw)).Some?
    ensures var b, push := Book(true, map[], map[], 0, 0), Push([], [Some(raw)], map[]);
            ReplaceEntries(b, push) == Ok(Run(b, Script(b, push, [], [], [])))
            <==> ClipStable(CleanTagName(Some(raw)).value, MAX_TAG_NAME_LENGTH)
  {
    var b, push := Book(true, map[], map[], 0, 0), Push([], [Some(raw)], map[]);
    var name := CleanTagName(Some(raw)).value;
    OneTagWanted(push, raw);
    ClipFixed(name, MAX_TAG_NAME_LENGTH);
    if ClipStable(name, MAX_TAG_NAME_LENGTH) {
      PushRefinesItems(b, push, [], [], []);
    } else {
      OneTagStored(b, push, name);
      OneTagRun(b, push, name);
    }
  }

  ghost function Letters(n: nat): string {
    if n == 0 then "" else Letters(n - 1) + "a"
  }

  lemma {:induction false} LettersTrimmed(n: nat)
    ensures |Letters(n)| == n && forall i :: 0 <= i < n ==> Letters(n)[i] == 'a'
  {
    if n > 0 { LettersTrimmed(n - 1); }
  }

  /** A name for which it fails: 99 letters, a space and a letter. Cut to 100 characters it ends in
      the space. */
  lemma UnstableName()
    ensures var raw := Letters(99) + " b";
            && CleanTagName(Some(raw)) == Some(Letters(99) + " ")
            && !ClipStable(Letters(99) + " ", MAX_TAG_NAME_LENGTH)
            && var b, push := Book(true, map[], map[], 0, 0), Push([], [Some(raw)], map[]);
            ReplaceEntries(b, push) != Ok(Run(b, Script(b, push, [], [], [])))
  {
    var raw := Letters(99) + " b";
    LettersTrimmed(99);
    assert Trimmed(raw);
    TrimFixed(raw);
    assert raw[..100] == Letters(99) + " ";
    OneTagPush(raw);
  }

  lemma OneTagWanted(push: Push, raw: string)
    requires push == Push([], [Some(raw)], map[]) && CleanTagName(Some(raw)).Some?
    ensures PushWanted(push) == [CleanTagName(Some(raw)).value]
  {
    var none: seq<Option<string>> := [];
    assert push.tagNames[..0] == none && CleanTagNames(none) == [];
  }

  lemma OneTagStored(b: Book, push: Push, name: string)
    requires b == Book(true, map[], map[], 0, 0) && push.entries == [] && push.tagColors == map[]
    requires PushWanted(push) == [name]
    ensures ReplaceEntries(b, push).Ok? && name in TagNames(ReplaceEntries(b, push).value)
  {
    var r := Overwritten(b, push);
    assert DropLast([name]) == [];
    assert EnsureTags(b, [], PushColors(push)) == b;
    var made := EnsureTags(b, [name], PushColors(push));
    assert made == EnsureTag(b, name, ColorOf(PushColors(push), name));
    assert 0 in r.tags && r.tags[0].name == name;
  }

  /** The one request of the script that does anything stores another name. */
  lemma OneTagAdded(b: Book, name: string, color: RawColor)
    requires b == Book(true, map[], map[], 0, 0) && CleanTagName(Some(name)) != Some(name)
    ensures name !in TagNames(Apply(b, OpAddTag(Some(name), color)))
  {
  }

  lemma NoNewNames(b: Book, name: string)
    requires name !in TagNames(b)
    ensures name !in TagNames(Apply(b, OpDeletePeers([]))) && name !in TagNames(Apply(b, OpDeleteTags([])))
  {
  }

  lemma OneTagScript(b: Book, push: Push, name: string)
    requires TagNames(b) == {} && push.entries == [] && PushWanted(push) == [name]
    ensures Script(b, push, [], [], [])
         == [OpAddTag(Some(name), RawColorOf(push, name)), OpDeletePeers([]), OpDeleteTags([])]
  {
    var none: seq<string> := [];
    assert DropLast([name]) == none && AddTagOps(TagNames(b), none, push) == [];
    assert Raw(none) == [];
  }

  lemma RunThree(b: Book, x: Op, y: Op, z: Op)
    ensures Run(b, [x, y, z]) == Apply(Apply(Apply(b, x), y), z)
  {
    assert DropLast([x, y, z]) == [x, y] && DropLast([x, y]) == [x] && DropLast([x]) == [];
    assert Run(b, [x]) == Apply(b, x);
    assert Run(b, [x, y]) == Apply(Run(b, [x]), y);
  }

  lemma OneTagRun(b: Book, push: Push, name: string)
    requires b == Book(true, map[], map[], 0, 0) && push.entries == [] && push.tagColors == map[]
    requires PushWanted(push) == [name] && CleanTagName(Some(name)) != Some(name)
    ensures name !in TagNames(Run(b, Script(b, push, [], [], [])))
  {
    var add := OpAddTag(Some(name), RawColorOf(push, name));
    OneTagScript(b, push, name);
    RunThree(b, add, OpDeletePeers([]), OpDeleteTags([]));
    OneTagAdded(b, name, RawColorOf(push, name));
    NoNewNames(Apply(b, add), name);
    NoNewNames(Apply(Apply(b, add), OpDeletePeers([])), name);
  }

  // ---- Pushed peers, one after the other ---------------------------------------------------

  lemma PushIdsLast(entries: seq<PeerData>)
    requires entries != []
    ensures forall r :: r in PushIds(entries)
                        <==> r in PushIds(DropLast(entries)) || CleanId(Last(entries).id) == Some(r)
  {
    assert entries == DropLast(entries) + [Last(entries)];
    assert Last(entries) in entries;
    assert forall d :: d in DropLast(entries) ==> d in entries;
  }

  lemma UpsertRids(b: Book, rid: string, data: PeerData)
    requires CountersFresh(b)
    ensures forall r :: r in Rids(Upsert(b, rid, data)) <==> r in Rids(b) || r == rid
  {
    var u := Upsert(b, rid, data);
    if rid !in Rids(b) {
      assert u.entries[b.nextEntry].rid == rid;
      assert forall e :: e in b.entries ==> u.entries[e] == b.entries[e];
    } else {
      assert u.entries.Keys == b.entries.Keys;
      assert forall e :: e in b.entries ==> u.entries[e].rid == b.entries[e].rid;
    }
    forall r | r in Rids(b) ensures r in Rids(u) {
      var e :| e in b.entries && b.entries[e].rid == r;
      assert u.entries[e].rid == r;
    }
  }

  lemma UpsertOneRids(b: Book, data: PeerData)
    requires Consistent(b)
    ensures Consistent(UpsertOne(b, data))
    ensures UpsertOne(b, data).tags == b.tags && UpsertOne(b, data).nextTag == b.nextTag
    ensures forall r :: r in Rids(UpsertOne(b, data)) <==> r in Rids(b) || CleanId(data.id) == Some(r)
  {
    if CleanId(data.id).Some? {
      UpsertConsistent(b, CleanId(data.id).value, LegacyData(data));
      UpsertRids(b, CleanId(data.id).value, LegacyData(data));
    }
  }

  lemma {:induction false} UpsertAllRids(b: Book, entries: seq<PeerData>)
    requires Consistent(b)
    ensures Consistent(UpsertAll(b, entries))
    ensures UpsertAll(b, entries).tags == b.tags && UpsertAll(b, entries).nextTag == b.nextTag
    ensures forall r :: r in Rids(UpsertAll(b, entries)) <==> r in Rids(b) || r in PushIds(entries)
  {
    if entries != [] {
      UpsertAllRids(b, DropLast(entries));
      UpsertOneRids(UpsertAll(b, DropLast(entries)), Last(entries));
      PushIdsLast(entries);
    }
  }

  /** Unless a new id repeats, looking ids up in the old snapshot is as good as looking them up
      afresh. */
  lemma {:induction false} PushAllIsUpsertAll(b: Book, known: set<string>, entries: seq<PeerData>)
    requires Consistent(b) && known == Rids(b)
    ensures !RepeatsNewId(known, entries) ==> PushAll(b, known, entries) == UpsertAll(b, entries)
  {
    if entries != [] {
      var init, id := DropLast(entries), CleanId(Last(entries).id);
      PushAllIsUpsertAll(b, known, init);
      UpsertAllRids(b, init);
      if RepeatsNewId(known, init) {
      } else if id.Some? && id.value !in known && id.value in PushIds(init) {
      }
    }
  }

  // ---- A repeated new id is the one way to fail --------------------------------------

  ghost predicate Persists(p: Book, r: Book) {
    && p.nextEntry <= r.nextEntry && CountersFresh(p) && CountersFresh(r)
    && forall e :: e in p.entries ==> e in r.entries && r.entries[e].rid == p.entries[e].rid
  }

  lemma PushOnePersists(b: Book, known: set<string>, data: PeerData)
    requires CountersFresh(b)
    ensures Persists(b, PushOne(b, known, data))
  {
  }

  lemma {:induction false} RowsPersist(b: Book, known: set<string>, entries: seq<PeerData>, k: nat)
    requires k <= |entries| && CountersFresh(b)
    ensures Persists(PushAll(b, known, entries[..k]), PushAll(b, known, entries))
    decreases entries
  {
    if k == |entries| {
      assert entries[..k] == entries;
      PushAllFresh(b, known, entries);
    } else {
      assert entries[..k] == DropLast(entries)[..k];
      RowsPersist(b, known, DropLast(entries), k);
      PushOnePersists(PushAll(b, known, DropLast(entries)), known, Last(entries));
    }
  }

  lemma {:induction false} PushAllFresh(b: Book, known: set<string>, entries: seq<PeerData>)
    requires CountersFresh(b)
    ensures CountersFresh(PushAll(b, known, entries))
  {
    if entries != [] {
      PushAllFresh(b, known, DropLast(entries));
      PushOnePersists(PushAll(b, known, DropLast(entries)), known, Last(entries));
    }
  }

  ghost predicate HoldsRow(b: Book, e: nat, rid: string) {
    e in b.entries && b.entries[e].rid == rid
  }

  lemma NewRow(b: Book, known: set<string>, entries: seq<PeerData>, k: nat) returns (e: nat)
    requires k < |entries| && CountersFresh(b)
    requires CleanId(entries[k].id).Some? && CleanId(entries[k].id).value !in known
    ensures HoldsRow(PushAll(b, known, entries), e, CleanId(entries[k].id).value)
    ensures PushAll(b, known, entries[..k]).nextEntry == e < PushAll(b, known, entries[..k + 1]).nextEntry
  {
    PrefixStep(entries, k);
    RowsPersist(b, known, entries, k + 1);
    e := PushAll(b, known, entries[..k]).nextEntry;
  }

  lemma NextEntryGrows(b: Book, known: set<string>, entries: seq<PeerData>, i: nat, j: nat)
    requires i <= j <= |entries| && CountersFresh(b)
    ensures PushAll(b, known, entries[..i]).nextEntry <= PushAll(b, known, entries[..j]).nextEntry
  {
    RowsPersist(b, known, entries[..j], i);
    assert entries[..j][..i] == entries[..i];
  }

  lemma {:induction false} TwoNewRows(
      b: Book, known: set<string>, entries: seq<PeerData>) returns (d: nat, e: nat, rid: string)
    requires CountersFresh(b) && RepeatsNewId(known, entries)
    ensures d != e && rid in PushIds(entries)
    ensures HoldsRow(PushAll(b, known, entries), d, rid) && HoldsRow(PushAll(b, known, entries), e, rid)
  {
    var i, j :|
      0 <= i < j < |entries| && CleanId(entries[i].id).Some? && CleanId(entries[i].id) == CleanId(entries[j].id) &&
      CleanId(entries[i].id).value !in known;
    rid := CleanId(entries[i].id).value;
    d := NewRow(b, known, entries, i);
    e := NewRow(b, known, entries, j);
    NextEntryGrows(b, known, entries, i + 1, j);
    assert entries[i] in entries;
  }

  lemma TagsPartConsistent(b: Book, push: Push)
    requires Consistent(b)
    ensures Consistent(PushTags(b, push)) && Rids(PushTags(b, push)) == Rids(b)
    ensures TagNames(PushTags(b, push)) == Elements(PushWanted(push))
  {
    var wanted, colors := PushWanted(push), PushColors(push);
    var b1 := EnsureTags(b, wanted, colors);
    EnsureTagsFacts(b, wanted, colors);
    RecolorFacts(b1, colors);
    var b2 := Recolor(b1, colors);
    KeepTagsConsistent(b2, iset n: string | n in wanted);
    KeepTagsNames(b2, iset n: string | n in wanted);
    KeepTagsRids(b2, iset n: string | n in wanted);
  }

  lemma KeepTagsNames(b: Book, kept: iset<string>)
    ensures forall n :: n in TagNames(KeepTags(b, kept)) <==> n in TagNames(b) && n in kept
  {
    var k := KeepTags(b, kept);
    forall n | n in TagNames(b) && n in kept ensures n in TagNames(k) {
      var t :| t in b.tags && b.tags[t].name == n;
      assert k.tags[t].name == n;
    }
  }

  lemma KeepTagsRids(b: Book, kept: iset<string>)
    ensures Rids(KeepTags(b, kept)) == Rids(b)
  {
    var k := KeepTags(b, kept);
    forall r | r in Rids(b) ensures r in Rids(k) {
      var e :| e in b.entries && b.entries[e].rid == r;
      assert k.entries[e].rid == r;
    }
  }

  // ---- Upserts commute with the bulk changes -----------------------------------------

  lemma KeepEntriesRids(b: Book, kept: iset<string>)
    ensures forall r :: r in Rids(KeepEntries(b, kept)) <==> r in Rids(b) && r in kept
  {
    var k := KeepEntries(b, kept);
    forall r | r in Rids(b) && r in kept ensures r in Rids(k) {
      var e :| e in b.entries && b.entries[e].rid == r;
      assert k.entries[e].rid == r;
    }
  }

  lemma KeepEntriesUpdate(b: Book, rid: string, data: PeerData, kept: iset<string>)
    ensures KeepEntries(UpdateRow(b, rid, data), kept) == UpdateRow(KeepEntries(b, kept), rid, data)
  {
    var k := KeepEntries(b, kept);
    assert LinkIds(k, PeerTagNames(data)) == LinkIds(b, PeerTagNames(data));
    assert KeepEntries(UpdateRow(b, rid, data), kept).entries == UpdateRow(k, rid, data).entries;
  }

  lemma SameUpdate(b: Book, c: Book, e: Entry, data: PeerData)
    requires c.tags == b.tags && c.personal == b.personal
    ensures Updated(c, e, data) == Updated(b, e, data)
  {
    assert LinkIds(c, PeerTagNames(data)) == LinkIds(b, PeerTagNames(data));
  }

  lemma KeepEntriesInsert(b: Book, rid: string, data: PeerData, kept: iset<string>)
    requires CountersFresh(b) && rid in kept
    ensures KeepEntries(InsertRow(b, rid, data), kept) == InsertRow(KeepEntries(b, kept), rid, data)
  {
    var k, row := KeepEntries(b, kept), Entry(rid, map[], {});
    SameUpdate(b, k, row, data);
    var e := Updated(b, row, data);
    assert e.rid == rid;
    assert KeepEntries(InsertRow(b, rid, data), kept).entries == k.entries[b.nextEntry := e];
  }

  lemma KeepEntriesCommutes(b: Book, data: PeerData, kept: iset<string>)
    requires CountersFresh(b)
    requires CleanId(data.id).Some? ==> CleanId(data.id).value in kept
    ensures KeepEntries(UpsertOne(b, data), kept) == UpsertOne(KeepEntries(b, kept), data)
  {
    KeepEntriesRids(b, kept);
    if CleanId(data.id).Some? {
      var rid := CleanId(data.id).value;
      KeepEntriesUpdate(b, rid, LegacyData(data), kept);
      KeepEntriesInsert(b, rid, LegacyData(data), kept);
    }
  }

  lemma {:induction false} KeepEntriesCommutesAll(b: Book, entries: seq<PeerData>, kept: iset<string>)
    requires Consistent(b)
    requires forall r :: r in PushIds(entries) ==> r in kept
    ensures KeepEntries(UpsertAll(b, entries), kept) == UpsertAll(KeepEntries(b, kept), entries)
  {
    if entries != [] {
      PushIdsLast(entries);
      KeepEntriesCommutesAll(b, DropLast(entries), kept);
      UpsertAllRids(b, DropLast(entries));
      KeepEntriesCommutes(UpsertAll(b, DropLast(entries)), Last(entries), kept);
    }
  }

  lemma RecolorCommutes(b: Book, data: PeerData, colors: map<string, int>)
    ensures Recolor(UpsertOne(b, data), colors) == UpsertOne(Recolor(b, colors), data)
  {
    RecolorFacts(b, colors);
    if CleanId(data.id).Some? {
      assert LinkIds(Recolor(b, colors), PeerTagNames(LegacyData(data))) == LinkIds(b, PeerTagNames(LegacyData(data)));
      assert Rids(Recolor(b, colors)) == Rids(b);
    }
  }

  lemma {:induction false} RecolorCommutesAll(b: Book, entries: seq<PeerData>, colors: map<string, int>)
    ensures Recolor(UpsertAll(b, entries), colors) == UpsertAll(Recolor(b, colors), entries)
  {
    if entries != [] {
      RecolorCommutesAll(b, DropLast(entries), colors);
      RecolorCommutes(UpsertAll(b, DropLast(entries)), Last(entries), colors);
    }
  }

  lemma KeepTagsUpdated(b: Book, e: Entry, data: PeerData, kept: iset<string>)
    requires data.tags.Some? && forall n :: n in PeerTagNames(data) ==> n in kept
    ensures var k := KeepTags(b, kept);
            var gone := b.tags.Keys - k.tags.Keys;
            Updated(k, e.(tags := e.tags - gone), data) == Updated(b, e, data).(tags := Updated(b, e, data).tags - gone)
  {
    var k := KeepTags(b, kept);
    var gone := b.tags.Keys - k.tags.Keys;
    assert LinkIds(k, PeerTagNames(data)) == LinkIds(b, PeerTagNames(data)) - gone;
  }

  lemma KeepTagsUpdate(b: Book, rid: string, data: PeerData, kept: iset<string>)
    requires data.tags.Some? && forall n :: n in PeerTagNames(data) ==> n in kept
    ensures KeepTags(UpdateRow(b, rid, data), kept) == UpdateRow(KeepTags(b, kept), rid, data)
  {
    var l, r := KeepTags(UpdateRow(b, rid, data), kept), UpdateRow(KeepTags(b, kept), rid, data);
    assert l.tags == r.tags;
    forall e | e in b.entries ensures l.entries[e] == r.entries[e] {
      KeepTagsUpdated(b, b.entries[e], data, kept);
    }
    assert l.entries == r.entries;
  }

  lemma KeepTagsInsert(b: Book, rid: string, data: PeerData, kept: iset<string>)
    requires CountersFresh(b)
    requires data.tags.Some? && forall n :: n in PeerTagNames(data) ==> n in kept
    ensures KeepTags(InsertRow(b, rid, data), kept) == InsertRow(KeepTags(b, kept), rid, data)
  {
    var l, r := KeepTags(InsertRow(b, rid, data), kept), InsertRow(KeepTags(b, kept), rid, data);
    assert l.tags == r.tags;
    var empty := Entry(rid, map[], {});
    KeepTagsUpdated(b, empty, data, kept);
    assert empty.(tags := empty.tags - (b.tags.Keys - l.tags.Keys)) == empty;
    assert l.entries == r.entries;
  }

  lemma KeepTagsCommutes(b: Book, data: PeerData, kept: iset<string>)
    requires CountersFresh(b)
    requires forall n :: n in PeerTagNames(data) ==> n in kept
    ensures KeepTags(UpsertOne(b, data), kept) == UpsertOne(KeepTags(b, kept), data)
  {
    KeepTagsRids(b, kept);
    if CleanId(data.id).Some? {
      var rid, full := CleanId(data.id).value, LegacyData(data);
      assert PeerTagNames(full) == PeerTagNames(data);
      KeepTagsUpdate(b, rid, full, kept);
      KeepTagsInsert(b, rid, full, kept);
    }
  }

  lemma {:induction false} KeepTagsCommutesAll(b: Book, entries: seq<PeerData>, kept: iset<string>)
    requires Consistent(b)
    requires forall d, n :: d in entries && n in PeerTagNames(d) ==> n in kept
    ensures KeepTags(UpsertAll(b, entries), kept) == UpsertAll(KeepTags(b, kept), entries)
  {
    if entries != [] {
      KeepTagsCommutesAll(b, DropLast(entries), kept);
      UpsertAllRids(b, DropLast(entries));
      KeepTagsCommutes(UpsertAll(b, DropLast(entries)), Last(entries), kept);
    }
  }

  // ---- Each part of the script -------------------------------------------------------

  lemma AddTagIsEnsure(b: Book, name: string, raw: RawColor)
    requires CountersFresh(b) && name !in TagNames(b) && ClipStable(name, MAX_TAG_NAME_LENGTH)
    ensures Apply(b, OpAddTag(Some(name), raw)) == EnsureTag(b, name, NormalizeColor(raw))
  {
    ClipFixed(name, MAX_TAG_NAME_LENGTH);
    var c := NormalizeColor(raw);
    var m := EnsureTag(b, name, c);
    assert forall t :: t in b.tags ==> b.tags[t].name != name;
    assert Recolor(m, map[name := c]).tags == m.tags;
  }

  lemma {:induction false} RunAddTags(b: Book, wanted: seq<string>, push: Push)
    requires CountersFresh(b) && Distinct(wanted)
    requires forall n :: n in wanted && n !in TagNames(b) ==> ClipStable(n, MAX_TAG_NAME_LENGTH)
    ensures Run(b, AddTagOps(TagNames(b), wanted, push)) == EnsureTags(b, wanted, PushColors(push))
  {
    if wanted != [] {
      var init, n := DropLast(wanted), Last(wanted);
      RunAddTags(b, init, push);
      EnsureTagsFacts(b, init, PushColors(push));
      var m := EnsureTags(b, init, PushColors(push));
      var ops := AddTagOps(TagNames(b), init, push);
      if n in TagNames(b) {
        assert AddTagOps(TagNames(b), wanted, push) == ops;
      } else {
        var op := OpAddTag(Some(n), RawColorOf(push, n));
        assert AddTagOps(TagNames(b), wanted, push) == ops + [op];
        RunSnoc(b, ops, op);
        assert n !in Elements(init);
        AddTagIsEnsure(m, n, RawColorOf(push, n));
      }
    }
  }

  lemma RunDeletePeers(b: Book, gone: seq<string>, kept: iset<string>)
    requires forall r :: r in Rids(b) ==> (r in gone <==> r !in kept)
    ensures Apply(b, OpDeletePeers(Raw(gone))) == KeepEntries(b, kept)
  {
    assert forall r :: Some(r) in Raw(gone) <==> r in gone by {
      forall r | r in gone ensures Some(r) in Raw(gone) {
        var i :| 0 <= i < |gone| && gone[i] == r;
        assert Raw(gone)[i] == Some(r);
      }
    }
    assert forall e :: e in b.entries ==> b.entries[e].rid in Rids(b);
    assert DeletePeers(b, Raw(gone)).entries == KeepEntries(b, kept).entries;
  }

  lemma AddPeerIsUpsert(b: Book, data: PeerData)
    requires CleanId(data.id).Some? && forall n :: n in PeerTagNames(data) ==> n in TagNames(b)
    ensures Apply(b, OpAddPeer(LegacyData(data))) == UpsertOne(b, data)
  {
    assert PeerTagNames(LegacyData(data)) == PeerTagNames(data);
    EnsurePresent(b, PeerTagNames(data), map[]);
  }

  lemma {:induction false} RunAddPeers(b: Book, entries: seq<PeerData>)
    requires Consistent(b)
    requires forall d, n :: d in entries && n in PeerTagNames(d) ==> n in TagNames(b)
    ensures Run(b, AddPeerOps(entries)) == UpsertAll(b, entries)
  {
    if entries != [] {
      var init, d := DropLast(entries), Last(entries);
      RunAddPeers(b, init);
      UpsertAllRids(b, init);
      assert TagNames(UpsertAll(b, init)) == TagNames(b);
      assert d in entries;
      var ops := AddPeerOps(init);
      if CleanId(d.id).None? {
        assert AddPeerOps(entries) == ops;
      } else {
        RunSnoc(b, ops, OpAddPeer(LegacyData(d)));
        AddPeerIsUpsert(UpsertAll(b, init), d);
      }
    }
  }

  lemma RunSnoc(b: Book, ops: seq<Op>, op: Op)
    ensures Run(b, ops + [op]) == Apply(Run(b, ops), op)
  {
    assert DropLast(ops + [op]) == ops;
  }

  lemma SetColorIsRecolor(b: Book, n: string, raw: RawColor)
    requires n in TagNames(b) && ClipStable(n, MAX_TAG_NAME_LENGTH)
    ensures Apply(b, OpSetTagColor(Some(n), raw)) == Recolor(b, map[n := NormalizeColor(raw)])
  {
    ClipFixed(n, MAX_TAG_NAME_LENGTH);
  }

  lemma RecolorTwice(b: Book, colors: map<string, int>, name: string, color: int)
    ensures Recolor(Recolor(b, colors), map[name := color]) == Recolor(b, colors[name := color])
  {
  }

  ghost function Restrict(colors: map<string, int>, names: set<string>): map<string, int> {
    map n | n in colors && n in names :: colors[n]
  }

  lemma RestrictLast(push: Push, names: seq<string>)
    requires names != [] && Last(names) in push.tagColors
    ensures Restrict(PushColors(push), Elements(names)) ==
            Restrict(PushColors(push), Elements(DropLast(names)))[Last(names) := PushColors(push)[Last(names)]]
  {
    assert names == DropLast(names) + [Last(names)];
  }

  lemma {:induction false} RunRecolor(b: Book, names: seq<string>, push: Push)
    requires forall n :: n in names ==> n in TagNames(b) && n in push.tagColors && ClipStable(n, MAX_TAG_NAME_LENGTH)
    ensures Run(b, RecolorOps(names, push)) == Recolor(b, Restrict(PushColors(push), Elements(names)))
  {
    if names == [] {
      assert Recolor(b, Restrict(PushColors(push), {})).tags == b.tags;
    } else {
      var init, n := DropLast(names), Last(names);
      var some := Restrict(PushColors(push), Elements(init));
      RecolorFacts(b, some);
      calc {
        Run(b, RecolorOps(names, push));
        { RunSnoc(b, RecolorOps(init, push), OpSetTagColor(Some(n), RawColorOf(push, n))); }
        Apply(Run(b, RecolorOps(init, push)), OpSetTagColor(Some(n), RawColorOf(push, n)));
        { RunRecolor(b, init, push); }
        Apply(Recolor(b, some), OpSetTagColor(Some(n), RawColorOf(push, n)));
        { SetColorIsRecolor(Recolor(b, some), n, RawColorOf(push, n)); }
        Recolor(Recolor(b, some), map[n := PushColors(push)[n]]);
        { RecolorTwice(b, some, n, PushColors(push)[n]); RestrictLast(push, names); }
        Recolor(b, Restrict(PushColors(push), Elements(names)));
      }
    }
  }

  lemma RecolorPresent(b: Book, colors: map<string, int>, names: set<string>)
    requires forall n :: n in names <==> n in TagNames(b) && n in colors
    ensures Recolor(b, Restrict(colors, names)) == Recolor(b, colors)
  {
    assert forall t :: t in b.tags ==> b.tags[t].name in TagNames(b);
  }

  lemma {:induction false} CleanStable(names: seq<string>, n: string)
    requires forall m :: m in names ==> ClipStable(m, MAX_TAG_NAME_LENGTH)
    ensures n in CleanTagNames(Raw(names)) <==> n in names
  {
    if names != [] {
      CleanStable(DropLast(names), n);
      var raw := Raw(names);
      assert raw[..|raw| - 1] == Raw(DropLast(names));
      ClipFixed(Last(names), MAX_TAG_NAME_LENGTH);
      assert names == DropLast(names) + [Last(names)];
    }
  }

  lemma RunDeleteTags(b: Book, stale: seq<string>, kept: iset<string>)
    requires forall m :: m in stale ==> ClipStable(m, MAX_TAG_NAME_LENGTH)
    requires forall n :: n in TagNames(b) ==> (n in stale <==> n !in kept)
    ensures Apply(b, OpDeleteTags(Raw(stale))) == KeepTags(b, kept)
  {
    forall n: string ensures n in CleanTagNames(Raw(stale)) <==> n in stale { CleanStable(stale, n); }
    assert forall t :: t in b.tags ==> b.tags[t].name in TagNames(b);
    assert DeleteTags(b, Raw(stale)).tags == KeepTags(b, kept).tags;
  }

  lemma {:induction false} WantedCovers(names: seq<string>, entries: seq<PeerData>)
    ensures forall n :: n in names ==> n in WantedTags(names, entries)
    ensures forall d, n :: d in entries && n in PeerTagNames(d) ==> n in WantedTags(names, entries)
  {
    if entries != [] {
      WantedCovers(names, DropLast(entries));
      AddNamesCovers(WantedTags(names, DropLast(entries)), PeerTagNames(Last(entries)));
      assert entries == DropLast(entries) + [Last(entries)];
    }
  }

  lemma {:induction false} AddNamesCovers(names: seq<string>, more: seq<string>)
    ensures forall n :: n in AddNames(names, more) <==> n in names || n in more
  {
    if more != [] {
      AddNamesCovers(names, DropLast(more));
      assert more == DropLast(more) + [Last(more)];
    }
  }

  // ---- The whole script ------------------------------------------------------------------

  lemma {:induction false} ScriptSplit(
      b: Book, push: Push, gone: seq<string>, painted: seq<string>, stale: seq<string>)
    ensures var p1 := Run(b, AddTagOps(TagNames(b), PushWanted(push), push));
            var p2 := Apply(p1, OpDeletePeers(Raw(gone)));
            var p3 := Run(p2, AddPeerOps(push.entries));
            var p4 := Run(p3, RecolorOps(painted, push));
            Run(b, Script(b, push, gone, painted, stale)) == Apply(p4, OpDeleteTags(Raw(stale)))
  {
    var o1, o2 := AddTagOps(TagNames(b), PushWanted(push), push), [OpDeletePeers(Raw(gone))];
    var o3, o4, o5 := AddPeerOps(push.entries), RecolorOps(painted, push), [OpDeleteTags(Raw(stale))];
    RunConcat(b, o1 + o2 + o3 + o4, o5);
    RunConcat(b, o1 + o2 + o3, o4);
    RunConcat(b, o1 + o2, o3);
    RunConcat(b, o1, o2);
    RunOne(Run(b, o1), o2[0]);
    RunOne(Run(b, o1 + o2 + o3 + o4), o5[0]);
  }

  lemma RunOne(b: Book, op: Op)
    ensures Run(b, [op]) == Apply(b, op)
  {
    assert DropLast([op]) == [];
  }

  /** The bulk changes that follow the added peers may as well come first. */
  lemma BulkFirst(b: Book, push: Push)
    requires Consistent(b)
    requires forall d, n :: d in push.entries && n in PeerTagNames(d) ==> n in PushWanted(push)
    ensures var colors, kept := PushColors(push), iset n: string | n in PushWanted(push);
            KeepTags(Recolor(UpsertAll(b, push.entries), colors), kept) ==
            UpsertAll(KeepTags(Recolor(b, colors), kept), push.entries)
  {
    var colors, kept := PushColors(push), iset n: string | n in PushWanted(push);
    RecolorCommutesAll(b, push.entries, colors);
    RecolorFacts(b, colors);
    KeepTagsCommutesAll(Recolor(b, colors), push.entries, kept);
  }

  lemma KeepsCommute(b: Book, ids: iset<string>, colors: map<string, int>, kept: iset<string>)
    ensures KeepTags(Recolor(KeepEntries(b, ids), colors), kept) == KeepEntries(KeepTags(Recolor(b, colors), kept), ids)
  {
  }

  /** The last two steps of the script, on the book the added peers leave. */
  lemma RunTagTail(b: Book, push: Push, painted: seq<string>, stale: seq<string>)
    requires forall n :: n in painted <==> n in TagNames(b) && n in push.tagColors
    requires forall n :: n in stale <==> n in TagNames(b) && n !in PushWanted(push)
    requires forall n :: n in painted || n in stale ==> ClipStable(n, MAX_TAG_NAME_LENGTH)
    ensures Apply(Run(b, RecolorOps(painted, push)), OpDeleteTags(Raw(stale))) ==
            KeepTags(Recolor(b, PushColors(push)), iset n: string | n in PushWanted(push))
  {
    RunRecolor(b, painted, push);
    RecolorPresent(b, PushColors(push), Elements(painted));
    RecolorFacts(b, PushColors(push));
    RunDeleteTags(Recolor(b, PushColors(push)), stale, iset n: string | n in PushWanted(push));
  }

  lemma ScriptNormalForm(b: Book, push: Push, gone: seq<string>, painted: seq<string>, stale: seq<string>)
    requires Consistent(b) && NamesStable(b, push) && Lists(b, push, gone, painted, stale)
    ensures Run(b, Script(b, push, gone, painted, stale)) ==
            UpsertAll(KeepEntries(PushTags(b, push), PushIds(push.entries)), push.entries)
  {
    var es, wanted, colors := push.entries, PushWanted(push), PushColors(push);
    ScriptSplit(b, push, gone, painted, stale);
    RunAddTags(b, wanted, push);
    var p1 := EnsureTags(b, wanted, colors);
    EnsureTagsFacts(b, wanted, colors);
    assert Rids(p1) == Rids(b);
    RunDeletePeers(p1, gone, PushIds(es));
    var p2 := KeepEntries(p1, PushIds(es));
    KeepEntriesConsistent(p1, PushIds(es));
    WantedCovers(CleanTagNames(push.tagNames), es);
    assert TagNames(p2) == TagNames(p1);
    RunAddPeers(p2, es);
    UpsertAllRids(p2, es);
    assert TagNames(UpsertAll(p2, es)) == TagNames(p1);
    RunTagTail(UpsertAll(p2, es), push, painted, stale);
    BulkFirst(p2, push);
    KeepsCommute(p1, PushIds(es), colors, iset n: string | n in wanted);
  }

  lemma {:induction false} Listing(names: set<string>) returns (list: seq<string>)
    ensures forall n :: n in list <==> n in names
  {
    if names == {} {
      list := [];
    } else {
      var n :| n in names;
      var rest := Listing(names - {n});
      list := rest + [n];
    }
  }
}
