/** Runs of address-book requests, and what every run keeps. */
module AddressBookRuns {
  import opened Common
  import opened Text
  import opened TagColors
  import opened AddressBook

  datatype Op =
    | OpAddTag(name: Option<string>, color: RawColor)
    | OpRenameTag(from: Option<string>, to: Option<string>)
    | OpSetTagColor(name: Option<string>, color: RawColor)
    | OpDeleteTags(names: seq<Option<string>>)
    | OpAddPeer(data: PeerData)
    | OpUpdatePeer(data: PeerData)
    | OpDeletePeers(ids: seq<Option<string>>)
    | OpPush(push: Push)

  ghost function Attempt(b: Book, op: Op): Result<Book, Error> {
    match op
    case OpAddTag(name, color) => AddTag(b, name, color)
    case OpRenameTag(from, to) => RenameTag(b, from, to)
    case OpSetTagColor(name, color) => SetTagColor(b, name, color)
    case OpDeleteTags(names) => Ok(DeleteTags(b, names))
    case OpAddPeer(data) => AddPeer(b, data)
    case OpUpdatePeer(data) => UpdatePeer(b, data)
    case OpDeletePeers(ids) => Ok(DeletePeers(b, ids))
    case OpPush(push) => ReplaceEntries(b, push)
  }

  /** One request: committed when it succeeds, rolled back when it fails. */
  ghost function Apply(b: Book, op: Op): Book {
    match Attempt(b, op)
    case Ok(b') => b'
    case Err(_) => b
  }

  ghost function Run(b: Book, ops: seq<Op>): Book {
    if ops == [] then b else Apply(Run(b, DropLast(ops)), Last(ops))
  }

  lemma {:induction false} RunConcat(b: Book, xs: seq<Op>, ys: seq<Op>)
    ensures Run(b, xs + ys) == Run(Run(b, xs), ys)
  {
    if ys == [] {
      assert xs + ys == xs;
    } else {
      assert DropLast(xs + ys) == xs + DropLast(ys) && Last(xs + ys) == Last(ys);
      calc {
        Run(b, xs + ys);
        Apply(Run(b, xs + DropLast(ys)), Last(ys));
        { RunConcat(b, xs, DropLast(ys)); }
        Apply(Run(Run(b, xs), DropLast(ys)), Last(ys));
      }
    }
  }

  // ---- Consistency is kept ----------------------------------------------------

  lemma EnsureTagFacts(b: Book, name: string, color: int)
    requires CountersFresh(b)
    ensures var r := EnsureTag(b, name, color);
            && r.entries == b.entries && r.nextEntry == b.nextEntry && r.personal == b.personal
            && TagNames(r) == TagNames(b) + {name}
            && CountersFresh(r)
            && (forall t :: t in b.tags ==> t in r.tags && r.tags[t] == b.tags[t])
            && (Consistent(b) ==> Consistent(r))
  {
    var r := EnsureTag(b, name, color);
    if name !in TagNames(b) {
      assert r.tags[b.nextTag].name == name;
      forall x | x in TagNames(b) ensures x in TagNames(r) {
        var t :| t in b.tags && b.tags[t].name == x;
        assert r.tags[t].name == x;
      }
    }
  }

  lemma {:induction false} EnsureTagsFacts(b: Book, names: seq<string>, colors: map<string, int>)
    requires CountersFresh(b)
    ensures var r := EnsureTags(b, names, colors);
            && r.entries == b.entries && r.nextEntry == b.nextEntry && r.personal == b.personal
            && TagNames(r) == TagNames(b) + Elements(names)
            && CountersFresh(r)
            && (forall t :: t in b.tags ==> t in r.tags && r.tags[t] == b.tags[t])
            && (Consistent(b) ==> Consistent(r))
    decreases names
  {
    if names != [] {
      EnsureTagsFacts(b, DropLast(names), colors);
      EnsureTagFacts(EnsureTags(b, DropLast(names), colors), Last(names), ColorOf(colors, Last(names)));
      assert names == DropLast(names) + [Last(names)];
    }
  }

  /** Names that are all present need no new row. */
  lemma {:induction false} EnsurePresent(b: Book, names: seq<string>, colors: map<string, int>)
    requires Elements(names) <= TagNames(b)
    ensures EnsureTags(b, names, colors) == b
  {
    if names != [] {
      assert Last(names) in Elements(names);
      assert Elements(DropLast(names)) <= Elements(names);
      EnsurePresent(b, DropLast(names), colors);
    }
  }

  lemma RecolorFacts(b: Book, colors: map<string, int>)
    ensures TagNames(Recolor(b, colors)) == TagNames(b)
    ensures Consistent(b) ==> Consistent(Recolor(b, colors))
    ensures forall names :: LinkIds(Recolor(b, colors), names) == LinkIds(b, names)
  {
    var r := Recolor(b, colors);
    assert forall t :: t in b.tags ==> r.tags[t].name == b.tags[t].name;
    assert r.tags.Keys == b.tags.Keys;
    forall x | x in TagNames(b) ensures x in TagNames(r) {
      var t :| t in b.tags && b.tags[t].name == x;
      assert r.tags[t].name == x;
    }
  }

  lemma KeepTagsConsistent(b: Book, kept: iset<string>)
    requires Consistent(b)
    ensures Consistent(KeepTags(b, kept))
  {
  }

  lemma KeepEntriesConsistent(b: Book, kept: iset<string>)
    requires Consistent(b)
    ensures Consistent(KeepEntries(b, kept))
  {
  }

  lemma UpsertConsistent(b: Book, rid: string, data: PeerData)
    requires Consistent(b)
    ensures Consistent(Upsert(b, rid, data))
    ensures Upsert(b, rid, data).tags == b.tags
  {
  }

  /** A push that meets the unique constraint leaves a consistent book. */
  lemma {:induction false} PushAllLive(b: Book, known: set<string>, entries: seq<PeerData>)
    requires LinksLive(b) && CountersFresh(b)
    ensures var r := PushAll(b, known, entries);
            LinksLive(r) && CountersFresh(r) && r.tags == b.tags && r.nextTag == b.nextTag && r.personal == b.personal
  {
    if entries != [] {
      PushAllLive(b, known, DropLast(entries));
    }
  }

  lemma OverwrittenLive(b: Book, push: Push)
    requires Consistent(b)
    ensures var r := Overwritten(b, push); UniqueNames(r) && LinksLive(r) && CountersFresh(r)
  {
    var wanted, colors := PushWanted(push), PushColors(push);
    EnsureTagsFacts(b, wanted, colors);
    RecolorFacts(EnsureTags(b, wanted, colors), colors);
    KeepTagsConsistent(Recolor(EnsureTags(b, wanted, colors), colors), iset n: string | n in wanted);
    PushAllLive(PushTags(b, push), Rids(b), push.entries);
  }

  lemma RenameConsistent(b: Book, from: Option<string>, to: Option<string>)
    requires Consistent(b) && RenameTag(b, from, to).Ok?
    ensures Consistent(RenameTag(b, from, to).value)
  {
    var r := RenameTag(b, from, to).value;
    var f, n := CleanTagName(from).value, CleanTagName(to).value;
    assert r.tags.Keys == b.tags.Keys;
    forall t, u | t in r.tags && u in r.tags && r.tags[t].name == r.tags[u].name
      ensures t == u
    {
      if n !in TagNames(b) {
        assert b.tags[t].name in TagNames(b) && b.tags[u].name in TagNames(b);
      }
    }
  }

  lemma ApplyConsistent(b: Book, op: Op)
    requires Consistent(b)
    ensures Consistent(Apply(b, op))
  {
    match op
    case OpAddTag(name, color) =>
      if CleanTagName(name).Some? {
        var c := NormalizeColor(color);
        EnsureTagFacts(b, CleanTagName(name).value, c);
        RecolorFacts(EnsureTag(b, CleanTagName(name).value, c), map[CleanTagName(name).value := c]);
      }
    case OpRenameTag(from, to) =>
      if RenameTag(b, from, to).Ok? { RenameConsistent(b, from, to); }
    case OpSetTagColor(name, color) =>
      if CleanTagName(name).Some? { RecolorFacts(b, map[CleanTagName(name).value := NormalizeColor(color)]); }
    case OpDeleteTags(names) =>
      KeepTagsConsistent(b, iset n: string | n !in CleanTagNames(names));
    case OpAddPeer(data) =>
      EnsureTagsFacts(b, PeerTagNames(data), map[]);
      if CleanId(data.id).Some? {
        UpsertConsistent(EnsureTags(b, PeerTagNames(data), map[]), CleanId(data.id).value, data);
      }
    case OpUpdatePeer(data) =>
      EnsureTagsFacts(b, PeerTagNames(data), map[]);
      if CleanId(data.id).Some? {
        var b1 := EnsureTags(b, PeerTagNames(data), map[]);
        UpsertConsistent(b1, CleanId(data.id).value, data);
      }
    case OpDeletePeers(ids) =>
      KeepEntriesConsistent(b, iset rid: string | Some(rid) !in ids);
    case OpPush(push) =>
      OverwrittenLive(b, push);
  }

  /** Every run keeps one entry per id, one tag per name, every link pointing at a live tag of
      this book, and the counters above all row ids. */
  lemma {:induction false} RunConsistent(b: Book, ops: seq<Op>)
    requires Consistent(b)
    ensures Consistent(Run(b, ops))
  {
    if ops != [] {
      RunConsistent(b, DropLast(ops));
      ApplyConsistent(Run(b, DropLast(ops)), Last(ops));
    }
  }

  // ---- Colours stay proper --------------------------------------------------------

  ghost predicate ProperColors(b: Book) {
    forall t :: t in b.tags ==> ProperColor(b.tags[t].color)
  }

  /** The operation carries no signed "#" colour. */
  ghost predicate PlainColors(op: Op) {
    match op
    case OpAddTag(_, color) => !SignedHash(color)
    case OpSetTagColor(_, color) => !SignedHash(color)
    case OpPush(push) => forall n :: n in push.tagColors ==> !SignedHash(push.tagColors[n])
    case _ => true
  }

  lemma {:induction false} EnsureTagsProper(b: Book, names: seq<string>, colors: map<string, int>)
    requires ProperColors(b) && forall n :: n in colors ==> ProperColor(colors[n])
    ensures ProperColors(EnsureTags(b, names, colors))
  {
    if names != [] {
      EnsureTagsProper(b, DropLast(names), colors);
    }
  }

  lemma {:induction false} PushAllTags(b: Book, known: set<string>, entries: seq<PeerData>)
    ensures PushAll(b, known, entries).tags == b.tags
  {
    if entries != [] {
      PushAllTags(b, known, DropLast(entries));
    }
  }

  lemma ApplyProper(b: Book, op: Op)
    requires ProperColors(b) && PlainColors(op)
    ensures ProperColors(Apply(b, op))
  {
    match op
    case OpAddTag(_, color) => ColorRange(color);
    case OpSetTagColor(_, color) => ColorRange(color);
    case OpAddPeer(data) => EnsureTagsProper(b, PeerTagNames(data), map[]);
    case OpUpdatePeer(data) => EnsureTagsProper(b, PeerTagNames(data), map[]);
    case OpPush(push) =>
      forall n | n in push.tagColors ensures ProperColor(PushColors(push)[n]) {
        ColorRange(push.tagColors[n]);
      }
      EnsureTagsProper(b, PushWanted(push), PushColors(push));
      PushAllTags(PushTags(b, push), Rids(b), push.entries);
    case _ =>
  }

  /** Every stored colour stays an opaque 32-bit colour in every run that sends no signed
      "#" text; `TagColors.ColorRange` says that such a text is the only way out. */
  lemma {:induction false} RunProper(b: Book, ops: seq<Op>)
    requires ProperColors(b) && forall i :: 0 <= i < |ops| ==> PlainColors(ops[i])
    ensures ProperColors(Run(b, ops))
  {
    if ops != [] {
      RunProper(b, DropLast(ops));
      ApplyProper(Run(b, DropLast(ops)), Last(ops));
    }
  }
}
