/** What the receipt index keeps over every history of rebuilds, updates, crashes and damage. */
module ReceiptIndexHistory {
  import opened Common
  import opened StringOrder
  import opened ReceiptIndex

  // ---------------------------------------------------- referenced files

  predicate Referenced(m: Manifest, name: FileName) {
    name == m.checkpointRef || (name.Segment? && m.checkpointGeneration < name.generation <= m.generation)
  }

  ghost predicate SameReferenced(m: Manifest, f: map<FileName, FileContent>, g: map<FileName, FileContent>) {
    forall name :: Referenced(m, name) ==> (name in f <==> name in g) && (name in f ==> f[name] == g[name])
  }

  lemma {:induction false} SegmentsFramed(
    f: map<FileName, FileContent>, g: map<FileName, FileContent>, after: nat, upTo: nat)
    requires forall n: nat :: after < n <= upTo ==> (Segment(n) in f <==> Segment(n) in g)
    requires forall n: nat :: after < n <= upTo && Segment(n) in f ==> f[Segment(n)] == g[Segment(n)]
    ensures SegmentEntries(f, after, upTo) == SegmentEntries(g, after, upTo)
    decreases upTo
  {
    if after < upTo {
      SegmentsFramed(f, g, after, upTo - 1);
    }
  }

  /** Files a manifest does not refer to, such as those a crash left behind, are never read. */
  lemma OrphansNeverRead(m: Manifest, f: map<FileName, FileContent>, g: map<FileName, FileContent>)
    requires SameReferenced(m, f, g)
    ensures Committed(m, f) == Committed(m, g)
    ensures Load(Disk(GoodManifest(m), f)) == Load(Disk(GoodManifest(m), g))
  {
    assert forall n: nat :: m.checkpointGeneration < n <= m.generation ==> Referenced(m, Segment(n));
    SegmentsFramed(f, g, m.checkpointGeneration, m.generation);
  }

  // --------------------------------------------------- manifest counters

  predicate ManifestInv(m: Manifest) {
    && 1 <= m.checkpointGeneration <= m.generation
    && m.checkpointRef == Checkpoint(m.checkpointGeneration)
    && (m.complete <==> m.unreadableCount == 0)
    && |m.unreadableSources| == Min(MAX_REPORTED_FAILURES, m.unreadableCount)
  }

  predicate DiskInv(disk: Disk) {
    disk.manifest.GoodManifest? ==>
      var m := disk.manifest.manifest;
      && ManifestInv(m)
      && (Committed(m, disk.files).Some? ==> |Committed(m, disk.files).value| == m.indexedEntryCount)
  }

  datatype Operation = Rebuild(at: int) | Update(refs: seq<string>, at: int)

  function CommitOf(disk: Disk, site: Site, resolve: Resolver, op: Operation): Commit {
    match op
    case Rebuild(at) => RebuildCommit(disk, site, at)
    case Update(refs, at) => UpdateCommit(disk, site, resolve, refs, at)
  }

  predicate Incremental(disk: Disk, op: Operation) {
    op.Update? && disk.manifest.GoodManifest?
  }

  /** No operation overwrites a file that the readable manifest refers to. */
  lemma NeverOverwritesReferenced(disk: Disk, site: Site, resolve: Resolver, op: Operation, writes: nat)
    requires DiskInv(disk) && disk.manifest.GoodManifest?
    ensures !Referenced(disk.manifest.manifest, CommitOf(disk, site, resolve, op).name)
    ensures SameReferenced(disk.manifest.manifest, disk.files,
                           Write(disk, CommitOf(disk, site, resolve, op), writes).files)
  {
  }

  /** The map a full rescan would index. */
  function ScanMap(site: Site): map<string, Entry> {
    Overlay(map[], Gather(ScanItems(site), None).entries)
  }

  function UpdateEntries(site: Site, resolve: Resolver, refs: seq<string>): seq<Entry> {
    Gather(UpdateItems(site, resolve, refs), None).entries
  }

  lemma {:induction false} GatherEntriesIgnoreHighWater(items: seq<Item>, h: Option<string>)
    ensures Gather(items, h).entries == Gather(items, None).entries
    ensures Gather(items, h).failures == Gather(items, None).failures
  {
    if items != [] {
      GatherEntriesIgnoreHighWater(items[..|items| - 1], h);
    }
  }

  lemma RebuildCommitted(disk: Disk, site: Site, at: int)
    ensures var after := Write(disk, RebuildCommit(disk, site, at), 2);
      Committed(after.manifest.manifest, after.files) == Some(Gather(ScanItems(site), None).entries)
  {
    var entries := Gather(ScanItems(site), None).entries;
    assert entries + [] == entries;
  }

  /** One more segment adds its entries to what a manifest commits to. */
  lemma SegmentExtends(m: Manifest, next: Manifest, files: map<FileName, FileContent>, entries: seq<Entry>)
    requires next.checkpointRef == m.checkpointRef && next.checkpointGeneration == m.checkpointGeneration <= m.generation
    requires next.generation == m.generation + 1
    requires Segment(next.generation) in files && files[Segment(next.generation)] == SegmentFile(next.generation, entries)
    ensures Committed(next, files) ==
      if Committed(m, files).None? then None else Some(Committed(m, files).value + entries)
  {
    var updates := SegmentEntries(files, m.checkpointGeneration, m.generation);
    if Committed(m, files).Some? {
      var lines := files[m.checkpointRef].lines;
      assert lines + (updates.value + entries) == (lines + updates.value) + entries;
    }
  }

  lemma UpdateCommitted(disk: Disk, site: Site, resolve: Resolver, refs: seq<string>, at: int)
    requires DiskInv(disk) && disk.manifest.GoodManifest?
    ensures var after := Write(disk, UpdateCommit(disk, site, resolve, refs, at), 2);
      var before := Committed(disk.manifest.manifest, disk.files);
      Committed(after.manifest.manifest, after.files) ==
        if before.None? then None else Some(before.value + UpdateEntries(site, resolve, refs))
  {
    var m := disk.manifest.manifest;
    var c := UpdateCommit(disk, site, resolve, refs, at);
    var files := disk.files[c.name := c.content];
    NeverOverwritesReferenced(disk, site, resolve, Update(refs, at), 1);
    OrphansNeverRead(m, disk.files, files);
    GatherEntriesIgnoreHighWater(UpdateItems(site, resolve, refs), m.highWater);
    SegmentExtends(m, c.manifest, files, c.content.entries);
  }

  /** Stopping after any file write leaves exactly the old committed view or exactly the new one. */
  lemma CrashLeavesOldOrNew(disk: Disk, site: Site, resolve: Resolver, op: Operation, writes: nat)
    requires DiskInv(disk)
    ensures var after := Load(Write(disk, CommitOf(disk, site, resolve, op), writes));
      && (writes < 2 ==> after == Load(disk))
      && (writes >= 2 && !Incremental(disk, op) ==> after.View? && after.entries == ScanMap(site))
      && (writes >= 2 && Incremental(disk, op) ==>
            if Load(disk).View?
            then after.View? && after.entries == Overlay(Load(disk).entries, UpdateEntries(site, resolve, op.refs))
            else after.Corrupt?)
  {
    var c := CommitOf(disk, site, resolve, op);
    if writes == 1 {
      OrphanHidden(disk, site, resolve, op);
    } else if writes >= 2 {
      assert Write(disk, c, writes) == Write(disk, c, 2);
      if Incremental(disk, op) {
        UpdateShows(disk, site, resolve, op.refs, op.at);
      } else {
        RebuildShows(disk, site, op.at);
      }
    }
  }

  lemma OrphanHidden(disk: Disk, site: Site, resolve: Resolver, op: Operation)
    requires DiskInv(disk)
    ensures Load(Write(disk, CommitOf(disk, site, resolve, op), 1)) == Load(disk)
  {
    var c := CommitOf(disk, site, resolve, op);
    if disk.manifest.GoodManifest? {
      NeverOverwritesReferenced(disk, site, resolve, op, 1);
      OrphansNeverRead(disk.manifest.manifest, disk.files, disk.files[c.name := c.content]);
    }
  }

  lemma RebuildShows(disk: Disk, site: Site, at: int)
    ensures var after := Load(Write(disk, RebuildCommit(disk, site, at), 2)); after.View? && after.entries == ScanMap(site)
  {
    RebuildCommitted(disk, site, at);
  }

  lemma UpdateShows(disk: Disk, site: Site, resolve: Resolver, refs: seq<string>, at: int)
    requires DiskInv(disk) && disk.manifest.GoodManifest?
    ensures var after := Load(Write(disk, UpdateCommit(disk, site, resolve, refs, at), 2));
      if Load(disk).View?
      then after.View? && after.entries == Overlay(Load(disk).entries, UpdateEntries(site, resolve, refs))
      else after.Corrupt?
  {
    UpdateCommitted(disk, site, resolve, refs, at);
    if Load(disk).View? {
      OverlayAppend(map[], Committed(disk.manifest.manifest, disk.files).value, UpdateEntries(site, resolve, refs));
    }
  }

  lemma OperationKeepsDiskInv(disk: Disk, site: Site, resolve: Resolver, op: Operation, writes: nat)
    requires DiskInv(disk)
    ensures DiskInv(Write(disk, CommitOf(disk, site, resolve, op), writes))
  {
    var c := CommitOf(disk, site, resolve, op);
    if writes == 1 {
      if disk.manifest.GoodManifest? {
        NeverOverwritesReferenced(disk, site, resolve, op, 1);
        OrphansNeverRead(disk.manifest.manifest, disk.files, disk.files[c.name := c.content]);
      }
    } else if writes >= 2 {
      assert Write(disk, c, writes) == Write(disk, c, 2);
      if Incremental(disk, op) {
        UpdateCommitted(disk, site, resolve, op.refs, op.at);
        GatherEntriesIgnoreHighWater(UpdateItems(site, resolve, op.refs), disk.manifest.manifest.highWater);
      } else {
        RebuildCommitted(disk, site, op.at);
      }
    }
  }

  lemma {:induction false} OverlaySize(entries: seq<Entry>)
    ensures |Overlay(map[], entries)| <= |entries|
  {
    if entries != [] {
      var init, last := entries[..|entries| - 1], entries[|entries| - 1];
      OverlaySize(init);
      var m := Overlay(map[], init);
      assert m[last.filePath := last].Keys == m.Keys + {last.filePath};
    }
  }

  /** A finished operation advances the generation by one while the manifest is readable, and an
      incremental one never lowers the high-water mark. */
  lemma GenerationAndHighWaterAdvance(disk: Disk, site: Site, resolve: Resolver, op: Operation)
    requires disk.manifest.GoodManifest?
    ensures var before := disk.manifest.manifest;
      var after := Write(disk, CommitOf(disk, site, resolve, op), 2).manifest.manifest;
      && after.generation == before.generation + 1
      && (op.Update? && before.highWater.Some? ==>
            after.highWater.Some? && Leq(before.highWater.value, after.highWater.value))
  {
    if op.Update? && disk.manifest.manifest.highWater.Some? {
      HighWaterRises(UpdateItems(site, resolve, op.refs), disk.manifest.manifest.highWater);
    }
  }

  lemma {:induction false} HighWaterRises(items: seq<Item>, h: Option<string>)
    requires h.Some?
    ensures Gather(items, h).highWater.Some? && Leq(h.value, Gather(items, h).highWater.value)
  {
    Total(h.value, h.value);
    if items != [] {
      var init := items[..|items| - 1];
      HighWaterRises(init, h);
      Transitive(h.value, Gather(init, h).highWater.value, Gather(items, h).highWater.value) by {
        Total(Gather(init, h).highWater.value, Gather(init, h).highWater.value);
      }
    }
  }

  /** The replay is last-write-wins: a path is present exactly when some entry names it, with the
      latest such entry. */
  lemma {:induction false} OverlayLastWins(view: map<string, Entry>, entries: seq<Entry>, p: string)
    ensures p in Overlay(view, entries) <==> p in view || exists i :: 0 <= i < |entries| && entries[i].filePath == p
    ensures forall i ::
      (0 <= i < |entries| && entries[i].filePath == p && forall j :: i < j < |entries| ==> entries[j].filePath != p)
      ==> Overlay(view, entries)[p] == entries[i]
    ensures p in view && (forall i :: 0 <= i < |entries| ==> entries[i].filePath != p) ==>
      Overlay(view, entries)[p] == view[p]
  {
    if entries != [] {
      var init := entries[..|entries| - 1];
      OverlayLastWins(view, init, p);
      assert forall i :: 0 <= i < |init| ==> init[i] == entries[i];
      if i :| 0 <= i < |entries| && entries[i].filePath == p {
        if i < |init| {
          assert init[i].filePath == p;
        }
      }
    }
  }

  // ------------------------------------------------ agreement with a rescan

  /** `stale`: scanned receipts written or deleted since a rebuild or a committed update last read them.
      `foreign`: receipts no scan lists that an update since the last rebuild has indexed. */
  datatype State = State(site: Site, disk: Disk, stale: set<string>, foreign: set<string>)

  datatype Action =
    | Put(rel: string, source: Source)
    | Delete(rel: string)
    | Index(op: Operation, writes: nat)
    | LoseManifest
    | SpoilManifest
    | SpoilFile(name: FileName)
    | LoseFile(name: FileName)

  function Targets(site: Site, resolve: Resolver, refs: seq<string>): set<string> {
    set ref | ref in refs && resolve(BeforeHash(ref)).Some? :: resolve(BeforeHash(ref)).value
  }

  predicate HasReceipt(site: Site, rel: string) {
    rel in site.tree && site.tree[rel].Receipt?
  }

  /** The receipts an update reads. */
  function ReadBy(site: Site, resolve: Resolver, refs: seq<string>): set<string> {
    set rel | rel in Targets(site, resolve, refs) && HasReceipt(site, rel)
  }

  function Touched(stale: set<string>, rel: string): set<string> {
    if Scanned(rel) then stale + {rel} else stale
  }

  function Indexed(s: State, resolve: Resolver, op: Operation, writes: nat): State {
    var t := s.(disk := Write(s.disk, CommitOf(s.disk, s.site, resolve, op), writes));
    if writes < 2 then t
    else if !Incremental(s.disk, op) then t.(stale := {}, foreign := {})
    else
      var read := ReadBy(s.site, resolve, op.refs);
      t.(stale := s.stale - read, foreign := s.foreign + (set rel | rel in read && !Scanned(rel)))
  }

  function Apply(s: State, resolve: Resolver, action: Action): State {
    match action
    case Put(rel, source) => s.(site := s.site.(tree := s.site.tree[rel := source]), stale := Touched(s.stale, rel))
    case Delete(rel) => s.(site := s.site.(tree := s.site.tree - {rel}), stale := Touched(s.stale, rel))
    case Index(op, writes) => Indexed(s, resolve, op, writes)
    case LoseManifest => s.(disk := s.disk.(manifest := NoManifest))
    case SpoilManifest => s.(disk := s.disk.(manifest := BadManifest))
    case SpoilFile(name) => s.(disk := s.disk.(files := s.disk.files[name := Damaged]))
    case LoseFile(name) => s.(disk := s.disk.(files := s.disk.files - {name}))
  }

  function Run(s: State, resolve: Resolver, actions: seq<Action>): State {
    if actions == [] then s
    else Apply(Run(s, resolve, actions[..|actions| - 1]), resolve, actions[|actions| - 1])
  }

  function Start(site: Site): State {
    State(site, Disk(NoManifest, map[]), set rel | rel in site.tree && Scanned(rel), {})
  }

  function Lookup(view: map<string, Entry>, p: string): Option<Entry> {
    if p in view then Some(view[p]) else None
  }

  /** What a rescan has for one receipt. */
  function Expected(site: Site, rel: string): Option<Entry> {
    if HasReceipt(site, rel) && Scanned(rel) then Some(Entry(Spell(site.scanRoot, rel), site.tree[rel].body)) else None
  }

  ghost predicate KeysSpelled(view: map<string, Entry>, root: string) {
    forall p :: p in view ==> exists rel :: p == Spell(root, rel)
  }

  /** Scanned receipts that are not stale are as a rescan has them; of the others, exactly the foreign
      ones are there. */
  ghost predicate Agrees(view: map<string, Entry>, site: Site, stale: set<string>, foreign: set<string>) {
    && KeysSpelled(view, site.scanRoot)
    && (forall rel :: Scanned(rel) && rel !in stale ==> Lookup(view, Spell(site.scanRoot, rel)) == Expected(site, rel))
    && (forall rel :: !Scanned(rel) ==> (Spell(site.scanRoot, rel) in view <==> rel in foreign))
  }

  ghost predicate Inv(s: State) {
    && DiskInv(s.disk)
    && (forall rel :: rel in s.foreign ==> !Scanned(rel))
    && (s.site.scanRoot == s.site.realRoot && Load(s.disk).View? ==>
          Agrees(Load(s.disk).entries, s.site, s.stale, s.foreign))
  }

  /** `e` is the entry for the receipt `rel`, spelled under `root`. */
  predicate EntryFor(e: Entry, site: Site, root: string, rel: string) {
    HasReceipt(site, rel) && e == Entry(Spell(root, rel), site.tree[rel].body)
  }

  predicate Yields(item: Item, e: Entry) {
    && item.source.Some? && item.source.value.Receipt?
    && e == Entry(item.filePath, item.source.value.body)
  }

  lemma {:induction false} GatheredFrom(items: seq<Item>)
    ensures forall e :: e in Gather(items, None).entries <==>
      exists i :: 0 <= i < |items| && Yields(items[i], e)
  {
    if items != [] {
      var init := items[..|items| - 1];
      GatheredFrom(init);
      var g := Gather(items, None).entries;
      forall e | e in g
        ensures exists i :: 0 <= i < |items| && Yields(items[i], e)
      {
        if e in Gather(init, None).entries {
          var i :| 0 <= i < |init| && Yields(init[i], e);
          assert items[i] == init[i];
        } else {
          assert Yields(items[|items| - 1], e);
        }
      }
      forall i, e | 0 <= i < |items| && Yields(items[i], e) ensures e in g {
        if i < |init| {
          assert Yields(init[i], e);
        }
      }
    }
  }

  /** A scan gathers exactly the entries of the scanned receipts. */
  lemma ScanGathers(site: Site)
    ensures forall e :: e in Gather(ScanItems(site), None).entries <==>
      exists rel :: Scanned(rel) && EntryFor(e, site, site.scanRoot, rel)
  {
    var items, rels := ScanItems(site), Listing(site);
    GatheredFrom(items);
    var entries := Gather(items, None).entries;
    forall e | e in entries ensures exists rel :: Scanned(rel) && EntryFor(e, site, site.scanRoot, rel) {
      var i :| 0 <= i < |items| && Yields(items[i], e);
      assert rels[i] in rels && EntryFor(e, site, site.scanRoot, rels[i]);
    }
    forall e, rel | Scanned(rel) && EntryFor(e, site, site.scanRoot, rel) ensures e in entries {
      var i :| 0 <= i < |rels| && rels[i] == rel;
      assert Yields(items[i], e);
    }
  }

  /** Each reference once, in the order of its first occurrence. */
  lemma {:induction false} FirstOccurrencesSame(refs: seq<string>)
    ensures forall r :: r in FirstOccurrences(refs) <==> r in refs
    ensures InFirstOrder(FirstOccurrences(refs), refs) && Distinct(FirstOccurrences(refs))
  {
    if refs != [] {
      var init, last := refs[..|refs| - 1], refs[|refs| - 1];
      FirstOccurrencesSame(init);
      StillInOrder(FirstOccurrences(init), init, last);
      assert refs == init + [last];
    }
  }

  /** An update gathers exactly the entries of the receipts its references lead to. */
  lemma UpdateGathers(site: Site, resolve: Resolver, refs: seq<string>)
    ensures forall e :: e in UpdateEntries(site, resolve, refs) <==>
      exists rel :: rel in Targets(site, resolve, refs) && EntryFor(e, site, site.realRoot, rel)
  {
    var items, keys := UpdateItems(site, resolve, refs), FirstOccurrences(refs);
    GatheredFrom(items);
    FirstOccurrencesSame(refs);
    var entries := UpdateEntries(site, resolve, refs);
    forall e | e in entries
      ensures exists rel :: rel in Targets(site, resolve, refs) && EntryFor(e, site, site.realRoot, rel)
    {
      var i :| 0 <= i < |items| && Yields(items[i], e);
      assert keys[i] in refs;
      assert EntryFor(e, site, site.realRoot, resolve(BeforeHash(keys[i])).value);
    }
    forall e, rel | rel in Targets(site, resolve, refs) && EntryFor(e, site, site.realRoot, rel) ensures e in entries {
      var ref :| ref in refs && resolve(BeforeHash(ref)) == Some(rel);
      var i :| 0 <= i < |keys| && keys[i] == ref;
      assert Yields(items[i], e);
    }
  }

  lemma SpellInjective(root: string, a: string, b: string)
    requires Spell(root, a) == Spell(root, b)
    ensures a == b
  {
    assert a == Spell(root, a)[|root| + 1..] && b == Spell(root, b)[|root| + 1..];
  }

  /** Laying entries over a map: a path some entry names gets that entry, when all entries naming it
      agree; any other path keeps its value. */
  lemma OverlayLookup(view: map<string, Entry>, entries: seq<Entry>, p: string, e: Entry)
    requires forall x :: x in entries && x.filePath == p ==> x == e
    ensures Lookup(Overlay(view, entries), p) ==
      if e in entries && e.filePath == p then Some(e) else Lookup(view, p)
    decreases entries
  {
    if entries != [] {
      var init, last := entries[..|entries| - 1], entries[|entries| - 1];
      assert entries == init + [last];
      OverlayLookup(view, init, p, e);
    }
  }

  lemma OverlayKeysSpelled(view: map<string, Entry>, entries: seq<Entry>, root: string)
    requires KeysSpelled(view, root)
    requires forall e :: e in entries ==> exists rel :: e.filePath == Spell(root, rel)
    ensures KeysSpelled(Overlay(view, entries), root)
  {
    forall p | p in Overlay(view, entries) ensures exists rel :: p == Spell(root, rel) {
      OverlayLastWins(view, entries, p);
      if i :| 0 <= i < |entries| && entries[i].filePath == p {
        assert entries[i] in entries;
      }
    }
  }

  /** What laying a set of receipts' entries over a map does to one receipt's path. */
  lemma OverlayReceipts(view: map<string, Entry>, entries: seq<Entry>, site: Site, root: string,
                        rels: iset<string>, rel: string)
    requires forall e :: e in entries <==> exists r :: r in rels && EntryFor(e, site, root, r)
    ensures Lookup(Overlay(view, entries), Spell(root, rel)) ==
      if rel in rels && HasReceipt(site, rel)
      then Some(Entry(Spell(root, rel), site.tree[rel].body))
      else Lookup(view, Spell(root, rel))
  {
    var p := Spell(root, rel);
    var e := if HasReceipt(site, rel) then Entry(p, site.tree[rel].body)
             else Entry(p, Body("", "", None, None, [], "", None));
    forall x | x in entries && x.filePath == p ensures x == e && rel in rels && HasReceipt(site, rel) {
      var r :| r in rels && EntryFor(x, site, root, r);
      SpellInjective(root, r, rel);
    }
    OverlayLookup(view, entries, p, e);
    if rel in rels && HasReceipt(site, rel) {
      assert EntryFor(e, site, root, rel);
    }
  }

  lemma ScanMapAgrees(site: Site)
    ensures Agrees(ScanMap(site), site, {}, {})
  {
    ScanGathers(site);
    var entries := Gather(ScanItems(site), None).entries;
    var rels := iset rel | Scanned(rel);
    assert forall e :: e in entries <==> exists r :: r in rels && EntryFor(e, site, site.scanRoot, r);
    forall rel ensures Lookup(ScanMap(site), Spell(site.scanRoot, rel)) == Expected(site, rel) {
      OverlayReceipts(map[], entries, site, site.scanRoot, rels, rel);
    }
    OverlayKeysSpelled(map[], entries, site.scanRoot);
  }

  /** What an update does to the path of each receipt, when paths have one spelling. */
  lemma UpdateLookup(view: map<string, Entry>, site: Site, resolve: Resolver, refs: seq<string>)
    requires site.scanRoot == site.realRoot
    ensures var after := Overlay(view, UpdateEntries(site, resolve, refs));
      forall rel :: Lookup(after, Spell(site.scanRoot, rel)) ==
        if rel in ReadBy(site, resolve, refs) then Some(Entry(Spell(site.scanRoot, rel), site.tree[rel].body))
        else Lookup(view, Spell(site.scanRoot, rel))
    ensures KeysSpelled(view, site.scanRoot) ==>
      KeysSpelled(Overlay(view, UpdateEntries(site, resolve, refs)), site.scanRoot)
  {
    UpdateGathers(site, resolve, refs);
    var entries := UpdateEntries(site, resolve, refs);
    var root, targets := site.scanRoot, Targets(site, resolve, refs);
    var rels := iset rel | rel in targets;
    assert forall e :: e in entries <==> exists r :: r in rels && EntryFor(e, site, root, r);
    forall rel
      ensures Lookup(Overlay(view, entries), Spell(root, rel)) ==
        if rel in ReadBy(site, resolve, refs) then Some(Entry(Spell(root, rel), site.tree[rel].body))
        else Lookup(view, Spell(root, rel))
    {
      OverlayReceipts(view, entries, site, root, rels, rel);
    }
    if KeysSpelled(view, root) {
      OverlayKeysSpelled(view, entries, root);
    }
  }

  lemma UpdateAgrees(view: map<string, Entry>, site: Site, resolve: Resolver, refs: seq<string>,
                     stale: set<string>, foreign: set<string>)
    requires site.scanRoot == site.realRoot && Agrees(view, site, stale, foreign)
    ensures var read := ReadBy(site, resolve, refs);
      Agrees(Overlay(view, UpdateEntries(site, resolve, refs)), site, stale - read,
             foreign + (set rel | rel in read && !Scanned(rel)))
  {
    UpdateLookup(view, site, resolve, refs);
  }

  lemma IndexKeepsInv(s: State, resolve: Resolver, op: Operation, writes: nat)
    requires Inv(s)
    ensures Inv(Apply(s, resolve, Index(op, writes)))
  {
    var t := Apply(s, resolve, Index(op, writes));
    OperationKeepsDiskInv(s.disk, s.site, resolve, op, writes);
    CrashLeavesOldOrNew(s.disk, s.site, resolve, op, writes);
    if s.site.scanRoot == s.site.realRoot && Load(t.disk).View? && writes >= 2 {
      if Incremental(s.disk, op) {
        UpdateAgrees(Load(s.disk).entries, s.site, resolve, op.refs, s.stale, s.foreign);
      } else {
        ScanMapAgrees(s.site);
      }
    }
  }

  lemma DamageKeepsInv(s: State, resolve: Resolver, action: Action)
    requires Inv(s) && !action.Index?
    ensures Inv(Apply(s, resolve, action))
  {
    var t := Apply(s, resolve, action);
    if action.SpoilFile? || action.LoseFile? {
      FileDamageKeepsInv(s, t, action.name);
    } else if action.Put? || action.Delete? {
      ReceiptChangeKeepsInv(s, t, action.rel);
    }
  }

  /** A receipt that changes is stale if a scan lists it, and does not matter otherwise. */
  lemma ReceiptChangeKeepsInv(s: State, t: State, rel: string)
    requires Inv(s) && t == s.(site := t.site, stale := Touched(s.stale, rel))
    requires t.site.scanRoot == s.site.scanRoot && t.site.realRoot == s.site.realRoot
    requires forall r :: r != rel ==> Expected(t.site, r) == Expected(s.site, r)
    ensures Inv(t)
  {
  }

  lemma FileDamageKeepsInv(s: State, t: State, name: FileName)
    requires Inv(s) && t == s.(disk := t.disk) && t.disk.manifest == s.disk.manifest
    requires t.disk.files == s.disk.files[name := Damaged] || t.disk.files == s.disk.files - {name}
    ensures Inv(t)
  {
    if s.disk.manifest.GoodManifest? {
      DamageShows(s.disk, t.disk, name);
    }
  }

  /** Damage to a referenced file turns the view corrupt; damage elsewhere does not show. */
  lemma DamageShows(before: Disk, after: Disk, name: FileName)
    requires before.manifest.GoodManifest? && after.manifest == before.manifest
    requires after.files == before.files[name := Damaged] || after.files == before.files - {name}
    requires before.manifest.manifest.checkpointRef.Checkpoint?
    ensures var m := before.manifest.manifest;
      Committed(m, after.files) == if Referenced(m, name) then None else Committed(m, before.files)
  {
    var m := before.manifest.manifest;
    if !Referenced(m, name) {
      OrphansNeverRead(m, before.files, after.files);
    } else if name != m.checkpointRef {
      UnusableSegment(after.files, m.checkpointGeneration, name.generation, m.generation);
    }
  }

  lemma {:induction false} RunKeepsInv(site: Site, resolve: Resolver, actions: seq<Action>)
    ensures Inv(Run(Start(site), resolve, actions))
  {
    if actions != [] {
      var init, last := actions[..|actions| - 1], actions[|actions| - 1];
      RunKeepsInv(site, resolve, init);
      var s := Run(Start(site), resolve, init);
      if last.Index? {
        IndexKeepsInv(s, resolve, last.op, last.writes);
      } else {
        DamageKeepsInv(s, resolve, last);
      }
    }
  }

  lemma {:induction false} RootsFixed(site: Site, resolve: Resolver, actions: seq<Action>)
    ensures var s := Run(Start(site), resolve, actions);
      s.site.scanRoot == site.scanRoot && s.site.realRoot == site.realRoot
  {
    if actions != [] {
      RootsFixed(site, resolve, actions[..|actions| - 1]);
    }
  }

  /** Along every history: complete means no unreadable source, the failure list has
      min(20, count) names, and the loaded map never exceeds the recorded entry count. */
  lemma CountersAlwaysRight(site: Site, resolve: Resolver, actions: seq<Action>)
    ensures var v := Load(Run(Start(site), resolve, actions).disk);
      v.View? ==>
        && (v.manifest.complete <==> v.manifest.unreadableCount == 0)
        && |v.manifest.unreadableSources| == Min(20, v.manifest.unreadableCount)
        && |v.entries| <= v.manifest.indexedEntryCount
  {
    RunKeepsInv(site, resolve, actions);
    var d := Run(Start(site), resolve, actions).disk;
    if Load(d).View? {
      OverlaySize(Committed(d.manifest.manifest, d.files).value);
    }
  }

  /** The path of a receipt that a scan under this root would list. */
  predicate ListedUnder(root: string, p: string) {
    |root| < |p| && p[..|root| + 1] == root + "/" && Scanned(p[|root| + 1..])
  }

  /** The part of a map a scan could have produced. */
  function ScannedPart(view: map<string, Entry>, root: string): map<string, Entry> {
    map p | p in view && ListedUnder(root, p) :: view[p]
  }

  lemma ListedIffScanned(root: string, rel: string)
    ensures ListedUnder(root, Spell(root, rel)) <==> Scanned(rel)
  {
    var p := Spell(root, rel);
    assert p[..|root| + 1] == root + "/" && p[|root| + 1..] == rel;
  }

  lemma ScannedLookup(view: map<string, Entry>, site: Site, foreign: set<string>, p: string)
    requires Agrees(view, site, {}, foreign)
    ensures Lookup(ScannedPart(view, site.scanRoot), p) == Lookup(ScanMap(site), p)
  {
    ScanMapAgrees(site);
    if p in view || p in ScanMap(site) {
      var rel :| p == Spell(site.scanRoot, rel);
      ListedIffScanned(site.scanRoot, rel);
    }
  }

  /** With no stale receipt the scanned part is the rescan, and the whole is exactly when nothing
      foreign is there. */
  lemma AgreeingIsRescan(view: map<string, Entry>, site: Site, foreign: set<string>)
    requires Agrees(view, site, {}, foreign) && forall rel :: rel in foreign ==> !Scanned(rel)
    ensures ScannedPart(view, site.scanRoot) == ScanMap(site)
    ensures view == ScanMap(site) <==> foreign == {}
  {
    forall p ensures Lookup(ScannedPart(view, site.scanRoot), p) == Lookup(ScanMap(site), p) {
      ScannedLookup(view, site, foreign, p);
    }
    SameLookups(ScannedPart(view, site.scanRoot), ScanMap(site));
    if foreign == {} {
      AllListed(view, site);
    } else {
      var rel :| rel in foreign;
      ScanMapAgrees(site);
      assert Spell(site.scanRoot, rel) in view && Spell(site.scanRoot, rel) !in ScanMap(site);
    }
  }

  lemma AllListed(view: map<string, Entry>, site: Site)
    requires Agrees(view, site, {}, {})
    ensures ScannedPart(view, site.scanRoot) == view
  {
    forall p | p in view ensures ListedUnder(site.scanRoot, p) {
      var rel :| p == Spell(site.scanRoot, rel);
      ListedIffScanned(site.scanRoot, rel);
    }
  }

  lemma SameLookups(a: map<string, Entry>, b: map<string, Entry>)
    requires forall p :: Lookup(a, p) == Lookup(b, p)
    ensures a == b
  {
    assert forall p :: p in a ==> Lookup(a, p) == Lookup(b, p);
    assert forall p :: p in b ==> Lookup(a, p) == Lookup(b, p);
  }

  /** Along every history with one spelling of paths, whenever no scanned receipt is stale the scanned
      part of the loaded index is the full rescan; the whole index is, so that every search answers as
      on the rescan, exactly when no update since the last rebuild read a receipt no scan lists. */
  lemma FreshIndexIsRescan(site: Site, resolve: Resolver, actions: seq<Action>, query: Query, lower: string -> string)
    requires site.scanRoot == site.realRoot
    ensures var s := Run(Start(site), resolve, actions);
      s.stale == {} && Load(s.disk).View? ==>
        && ScannedPart(Load(s.disk).entries, s.site.scanRoot) == ScanMap(s.site)
        && (Load(s.disk).entries == ScanMap(s.site) <==> s.foreign == {})
        && (s.foreign == {} ==> Search(Load(s.disk).entries, query, lower) == Search(ScanMap(s.site), query, lower))
  {
    RunKeepsInv(site, resolve, actions);
    RootsFixed(site, resolve, actions);
    var s := Run(Start(site), resolve, actions);
    if s.stale == {} && Load(s.disk).View? {
      AgreeingIsRescan(Load(s.disk).entries, s.site, s.foreign);
    }
  }

  // ------------------------------------------------------ what can be loaded

  lemma {:induction false} SegmentsUsable(files: map<FileName, FileContent>, after: nat, upTo: nat)
    ensures SegmentEntries(files, after, upTo).Some? <==>
      forall n: nat :: after < n <= upTo ==>
        Segment(n) in files && files[Segment(n)].SegmentFile? && files[Segment(n)].generation == n
    decreases upTo
  {
    if after < upTo {
      SegmentsUsable(files, after, upTo - 1);
    }
  }

  /** An index loads exactly when its manifest is readable, its checkpoint is there, and so is every
      segment up to its generation, each bearing its own number; a missing manifest is told apart. */
  lemma LoadsExactly(disk: Disk)
    ensures Load(disk).Missing? <==> disk.manifest.NoManifest?
    ensures Load(disk).View? <==>
      && disk.manifest.GoodManifest?
      && var m := disk.manifest.manifest;
         && m.checkpointRef in disk.files && disk.files[m.checkpointRef].CheckpointFile?
         && forall n: nat :: m.checkpointGeneration < n <= m.generation ==>
              && Segment(n) in disk.files && disk.files[Segment(n)].SegmentFile?
              && disk.files[Segment(n)].generation == n
    ensures Load(disk).View? ==> Load(disk).manifest == disk.manifest.manifest
  {
    if disk.manifest.GoodManifest? {
      SegmentsUsable(disk.files, disk.manifest.manifest.checkpointGeneration, disk.manifest.manifest.generation);
    }
  }

  lemma KindDirsListed()
    ensures KIND_DIRS == {
      "agent-runs", "evaluation-reports", "authority-transitions", "deliberation", "domain-memory",
      "agent-work-results", "review-workspaces", "agent-tool-results", "autonomy-admissions"}
  {
  }

  predicate JsonFileIn(rel: string, dir: string, file: string) {
    rel == Spell(dir, file) && '/' !in file && EndsWith(file, ".json")
  }

  /** A scan lists exactly the JSON files directly inside the kind directories. */
  lemma ScannedExactly(rel: string)
    ensures Scanned(rel) <==> exists dir, file :: dir in KIND_DIRS && JsonFileIn(rel, dir, file)
  {
    if Scanned(rel) {
      var slash :| 0 <= slash < |rel| && ScannedAt(rel, slash);
      var dir, file := rel[..slash], rel[slash + 1..];
      assert rel == Spell(dir, file);
      SuffixAfterSlash(dir, file);
      assert JsonFileIn(rel, dir, file);
    }
    if dir, file :| dir in KIND_DIRS && JsonFileIn(rel, dir, file) {
      FileIsScanned(dir, file);
    }
  }

  lemma FileIsScanned(dir: string, file: string)
    requires dir in KIND_DIRS && '/' !in file && EndsWith(file, ".json")
    ensures Scanned(Spell(dir, file))
  {
    var rel := Spell(dir, file);
    assert rel[..|dir|] == dir && rel[|dir| + 1..] == file;
    assert rel[|rel| - 5..] == file[|file| - 5..];
    assert ScannedAt(rel, |dir|);
  }

  lemma SuffixAfterSlash(dir: string, file: string)
    requires EndsWith(Spell(dir, file), ".json")
    ensures EndsWith(file, ".json")
  {
    var rel, n := Spell(dir, file), |Spell(dir, file)|;
    assert forall i :: n - 5 <= i < n ==> rel[i] == rel[n - 5..][i - (n - 5)] && rel[i] != '/';
    assert rel[|dir|] == '/';
    assert |file| >= 5;
    assert file[|file| - 5..] == rel[n - 5..];
  }

  // ---------------------------------------------------- what is reported

  predicate ReadWell(item: Item) {
    item.source.Some? && item.source.value.Receipt? && item.source.value.modified.Some?
  }

  lemma {:induction false} NoFailureIffAllRead(items: seq<Item>)
    ensures Gather(items, None).failures == [] <==> forall i :: 0 <= i < |items| ==> ReadWell(items[i])
  {
    if items != [] {
      NoFailureIffAllRead(items[..|items| - 1]);
      assert forall i :: 0 <= i < |items| - 1 ==> items[..|items| - 1][i] == items[i];
    }
  }

  /** A finished rebuild is complete exactly when every scanned receipt could be read and dated. */
  lemma RebuildCompleteIffAllRead(disk: Disk, site: Site, at: int)
    ensures RebuildCommit(disk, site, at).manifest.complete <==>
      forall rel :: rel in site.tree && Scanned(rel) ==> site.tree[rel].Receipt? && site.tree[rel].modified.Some?
  {
    var items, rels := ScanItems(site), Listing(site);
    NoFailureIffAllRead(items);
    if forall i :: 0 <= i < |items| ==> ReadWell(items[i]) {
      forall rel | rel in site.tree && Scanned(rel)
        ensures site.tree[rel].Receipt? && site.tree[rel].modified.Some?
      {
        var i :| 0 <= i < |rels| && rels[i] == rel;
        assert ReadWell(items[i]);
      }
    } else {
      var i :| 0 <= i < |items| && !ReadWell(items[i]);
      assert rels[i] in rels;
    }
  }

  function Marker(item: Item): string
    requires ReadWell(item)
  {
    item.source.value.modified.value + ":" + item.reported
  }

  /** The failures are the reported names of exactly the sources that could not be read and dated, and the
      mark, if it moved, is the marker of one that could. */
  lemma {:induction false} GatheredReports(items: seq<Item>, h: Option<string>)
    ensures forall x :: x in Gather(items, h).failures <==>
      exists i :: 0 <= i < |items| && !ReadWell(items[i]) && items[i].reported == x
    ensures |Gather(items, h).failures| <= |items|
    ensures Gather(items, h).highWater == h
      || exists i :: 0 <= i < |items| && ReadWell(items[i]) && Gather(items, h).highWater == Some(Marker(items[i]))
  {
    if items != [] {
      var n := |items| - 1;
      var init := items[..n];
      assert forall i :: 0 <= i < n ==> init[i] == items[i];
      GatheredReports(init, h);
      var before, after := Gather(init, h), Gather(items, h);
      forall x | x in after.failures ensures exists i :: 0 <= i < |items| && !ReadWell(items[i]) && items[i].reported == x {
        if x in before.failures {
          var i :| 0 <= i < n && !ReadWell(init[i]) && init[i].reported == x;
          assert !ReadWell(items[i]);
        } else {
          assert !ReadWell(items[n]);
        }
      }
      if after.highWater != h && after.highWater == before.highWater {
        var i :| 0 <= i < n && ReadWell(init[i]) && before.highWater == Some(Marker(init[i]));
        assert ReadWell(items[i]);
      } else if after.highWater != h {
        assert ReadWell(items[n]);
      }
    }
  }

  /** The entries of the sources that parse, and the names of those that failed, in order. */
  function ParsedEntries(items: seq<Item>): seq<Entry> {
    if items == [] then []
    else
      var first := items[0].source;
      (if first.Some? && first.value.Receipt? then [Entry(items[0].filePath, first.value.body)] else [])
      + ParsedEntries(items[1..])
  }

  function FailedNames(items: seq<Item>): seq<string> {
    if items == [] then [] else (if ReadWell(items[0]) then [] else [items[0].reported]) + FailedNames(items[1..])
  }

  lemma {:induction false} ParsedSnoc(items: seq<Item>, last: Item)
    ensures ParsedEntries(items + [last]) == ParsedEntries(items) + ParsedEntries([last])
  {
    if items == [] {
      assert items + [last] == [last];
    } else {
      assert (items + [last])[1..] == items[1..] + [last];
      ParsedSnoc(items[1..], last);
    }
  }

  lemma {:induction false} FailedSnoc(items: seq<Item>, last: Item)
    ensures FailedNames(items + [last]) == FailedNames(items) + FailedNames([last])
  {
    if items == [] {
      assert items + [last] == [last];
    } else {
      assert (items + [last])[1..] == items[1..] + [last];
      FailedSnoc(items[1..], last);
    }
  }

  lemma {:induction false} GatheredLists(items: seq<Item>, h: Option<string>)
    ensures Gather(items, h).entries == ParsedEntries(items)
    ensures Gather(items, h).failures == FailedNames(items)
  {
    if items != [] {
      var init, last := items[..|items| - 1], items[|items| - 1];
      GatheredLists(init, h);
      ParsedSnoc(init, last);
      FailedSnoc(init, last);
      assert items == init + [last] && [last][1..] == [];
    }
  }

  /** A rebuild reports the relative path of exactly the scanned receipts it could not read and date. */
  lemma RebuildReports(site: Site, x: string)
    ensures x in Gather(ScanItems(site), None).failures <==>
      && x in site.tree && Scanned(x)
      && !(site.tree[x].Receipt? && site.tree[x].modified.Some?)
  {
    var items, rels := ScanItems(site), Listing(site);
    GatheredReports(items, None);
    if i :| 0 <= i < |items| && !ReadWell(items[i]) && items[i].reported == x {
      assert rels[i] in rels;
    }
    if x in site.tree && Scanned(x) && !(site.tree[x].Receipt? && site.tree[x].modified.Some?) {
      var i :| 0 <= i < |rels| && rels[i] == x;
      assert !ReadWell(items[i]) && items[i].reported == x;
    }
  }

  /** An update reports exactly those of its references, cut before any '#', that lead nowhere or to a
      receipt it could not read and date. */
  lemma UpdateReports(site: Site, resolve: Resolver, refs: seq<string>, h: Option<string>, x: string)
    ensures x in Gather(UpdateItems(site, resolve, refs), h).failures <==>
      exists ref :: ref in refs && BeforeHash(ref) == x && !ReadWell(UpdateItem(site, resolve, ref))
  {
    var items, keys := UpdateItems(site, resolve, refs), FirstOccurrences(refs);
    GatheredReports(items, h);
    FirstOccurrencesSame(refs);
    if i :| 0 <= i < |items| && !ReadWell(items[i]) && items[i].reported == x {
      assert keys[i] in refs;
    }
    if ref :| ref in refs && BeforeHash(ref) == x && !ReadWell(UpdateItem(site, resolve, ref)) {
      var i :| 0 <= i < |keys| && keys[i] == ref;
      assert !ReadWell(items[i]) && items[i].reported == x;
    }
  }

  /** What a manifest made from scratch says of the sources gathered. */
  predicate Summarizes(m: Manifest, g: Gathered, at: int) {
    && m.updatedAt == at && m.complete == (g.failures == []) && m.unreadableCount == |g.failures|
    && m.unreadableSources <= g.failures && m.highWater == g.highWater && m.indexedEntryCount == |g.entries|
  }

  /** What a manifest says once those gathered by an update are added. */
  predicate Adds(m: Manifest, was: Manifest, g: Gathered, at: int) {
    && m.updatedAt == at && m.complete == (was.complete && g.failures == [])
    && m.unreadableCount == was.unreadableCount + |g.failures|
    && m.unreadableSources <= was.unreadableSources + g.failures
    && m.indexedEntryCount == was.indexedEntryCount + |g.entries| && m.highWater == g.highWater
    && m.checkpointRef == was.checkpointRef && m.checkpointGeneration == was.checkpointGeneration
  }

  lemma ManifestsExact(generation: nat, m: Manifest, g: Gathered, at: int)
    ensures Summarizes(RebuiltManifest(generation, g, at), g, at)
    ensures Adds(UpdatedManifest(m, g, at), m, g, at)
  {
  }

  /** A finished rebuild writes what it gathered into the manifest, and an update adds it. */
  lemma RebuildManifestExact(disk: Disk, site: Site, at: int)
    ensures Summarizes(RebuildCommit(disk, site, at).manifest, Gather(ScanItems(site), None), at)
    ensures RebuildCommit(disk, site, at).manifest.generation ==
      match disk.manifest { case GoodManifest(m) => m.generation + 1 case _ => 1 }
  {
    var g, m := Gather(ScanItems(site), None), RebuiltManifest(1, Gathered([], [], None), 0);
    ManifestsExact(NextGeneration(disk.manifest), m, g, at);
  }

  lemma UpdateManifestExact(disk: Disk, site: Site, resolve: Resolver, refs: seq<string>, at: int)
    requires disk.manifest.GoodManifest?
    ensures var was := disk.manifest.manifest;
      Adds(UpdateCommit(disk, site, resolve, refs, at).manifest, was, Gather(UpdateItems(site, resolve, refs), was.highWater), at)
  {
    var was := disk.manifest.manifest;
    ManifestsExact(0, was, Gather(UpdateItems(site, resolve, refs), was.highWater), at);
  }

  /** The high-water mark is at or above the marker of every receipt gathered. */
  lemma {:induction false} HighWaterCovers(items: seq<Item>, h: Option<string>, i: nat)
    requires i < |items| && ReadWell(items[i])
    ensures var mark := Gather(items, h).highWater;
      mark.Some? && Leq(items[i].source.value.modified.value + ":" + items[i].reported, mark.value)
  {
    var n := |items| - 1;
    var marker := items[i].source.value.modified.value + ":" + items[i].reported;
    var before := Gather(items[..n], h).highWater;
    Total(marker, marker);
    if i < n {
      HighWaterCovers(items[..n], h, i);
      Total(before.value, before.value);
      Transitive(marker, before.value, Gather(items, h).highWater.value);
    }
  }

  // ------------------------------------------------------- search, in words

  /** The texts of a receipt that a query is looked for in, field by field. */
  function TextsIn(e: Body, field: SearchField): set<string> {
    match field
    case InReceiptId => {e.receiptId}
    case InStatus => if e.status.Some? && e.status.value != "" then {e.status.value} else {}
    case InKind => {e.kind}
    case InRefs => set r | r in e.refs
    case InText => {e.text}
  }

  predicate MatchesIn(e: Body, field: SearchField, q: string, lower: string -> string) {
    exists t :: t in TextsIn(e, field) && Contains(lower(t), q)
  }

  const SEARCH_FIELDS := [InReceiptId, InStatus, InKind, InRefs, InText]

  function MatchingFields(fields: seq<SearchField>, e: Body, q: string, lower: string -> string): seq<SearchField> {
    if fields == [] then []
    else
      var last := fields[|fields| - 1];
      MatchingFields(fields[..|fields| - 1], e, q, lower) + (if MatchesIn(e, last, q, lower) then [last] else [])
  }

  lemma RefsMatch(e: Body, q: string, lower: string -> string)
    ensures MatchesIn(e, InRefs, q, lower) <==> exists i :: 0 <= i < |e.refs| && Contains(lower(e.refs[i]), q)
  {
    if MatchesIn(e, InRefs, q, lower) {
      var t :| t in TextsIn(e, InRefs) && Contains(lower(t), q);
      var i :| 0 <= i < |e.refs| && e.refs[i] == t;
      assert Contains(lower(e.refs[i]), q);
    } else {
      assert forall i :: 0 <= i < |e.refs| ==> e.refs[i] in TextsIn(e, InRefs);
    }
  }

  lemma SingleMatch(e: Body, q: string, lower: string -> string)
    ensures MatchesIn(e, InReceiptId, q, lower) <==> Contains(lower(e.receiptId), q)
    ensures MatchesIn(e, InKind, q, lower) <==> Contains(lower(e.kind), q)
    ensures MatchesIn(e, InText, q, lower) <==> Contains(lower(e.text), q)
    ensures MatchesIn(e, InStatus, q, lower) <==>
      e.status.Some? && e.status.value != "" && Contains(lower(e.status.value), q)
  {
    assert e.receiptId in TextsIn(e, InReceiptId) && e.kind in TextsIn(e, InKind) && e.text in TextsIn(e, InText);
    if e.status.Some? && e.status.value != "" {
      assert e.status.value in TextsIn(e, InStatus);
    }
  }

  lemma MatchingFieldsSnoc(fields: seq<SearchField>, last: SearchField, e: Body, q: string, lower: string -> string)
    ensures MatchingFields(fields + [last], e, q, lower) ==
      MatchingFields(fields, e, q, lower) + (if MatchesIn(e, last, q, lower) then [last] else [])
  {
    assert (fields + [last])[..|fields|] == fields;
  }

  lemma MatchedOnExact(e: Body, q: string, lower: string -> string)
    ensures MatchedOn(e, q, lower) == MatchingFields(SEARCH_FIELDS, e, q, lower)
  {
    RefsMatch(e, q, lower);
    SingleMatch(e, q, lower);
    var none: seq<SearchField> := [];
    var one := none + [InReceiptId];
    var two := one + [InStatus];
    var three := two + [InKind];
    var four := three + [InRefs];
    MatchingFieldsSnoc(none, InReceiptId, e, q, lower);
    MatchingFieldsSnoc(one, InStatus, e, q, lower);
    MatchingFieldsSnoc(two, InKind, e, q, lower);
    MatchingFieldsSnoc(three, InRefs, e, q, lower);
    MatchingFieldsSnoc(four, InText, e, q, lower);
    assert four + [InText] == SEARCH_FIELDS;
  }

  lemma {:induction false} MatchingFieldsExact(fields: seq<SearchField>, e: Body, q: string, lower: string -> string)
    ensures forall f :: f in MatchingFields(fields, e, q, lower) <==> f in fields && MatchesIn(e, f, q, lower)
  {
    if fields != [] {
      MatchingFieldsExact(fields[..|fields| - 1], e, q, lower);
      assert fields == fields[..|fields| - 1] + [fields[|fields| - 1]];
    }
  }

  lemma MatchedOnMembers(e: Body, q: string, lower: string -> string)
    ensures MatchedOn(e, q, lower) == MatchingFields(SEARCH_FIELDS, e, q, lower)
    ensures MatchedOn(e, q, lower) != [] <==> exists f :: f in SEARCH_FIELDS && MatchesIn(e, f, q, lower)
    ensures InText in MatchedOn(e, q, lower) <==> Contains(lower(e.text), q)
  {
    MatchedOnExact(e, q, lower);
    var fields := SEARCH_FIELDS;
    MatchingFieldsExact(fields, e, q, lower);
    SingleMatch(e, q, lower);
    var matched := MatchedOn(e, q, lower);
    assert matched != [] ==> matched[0] in matched;
    assert fields[4] == InText;
  }

  /** An entry is a hit exactly when its kind is asked for and some field contains the query without
      regard to case; the fields reported are exactly those that do, in their fixed order, and the
      snippet is the start of the text when that does. */
  lemma HitExact(e: Entry, query: Query, lower: string -> string)
    ensures HitFor(e, query, lower).Some? <==>
      && (query.kinds.None? || e.body.kind in query.kinds.value)
      && exists f :: f in SEARCH_FIELDS && MatchesIn(e.body, f, lower(query.text), lower)
    ensures var hit := HitFor(e, query, lower);
      hit.Some? ==>
        && hit.value.entry == e
        && hit.value.matchedOn == MatchingFields(SEARCH_FIELDS, e.body, lower(query.text), lower)
        && (hit.value.snippet.Some? <==> InText in hit.value.matchedOn)
        && (hit.value.snippet.Some? ==>
              hit.value.snippet.value <= e.body.text && |hit.value.snippet.value| == Min(200, |e.body.text|))
  {
    MatchedOnMembers(e.body, lower(query.text), lower);
  }

  ghost predicate KeyedByPath(view: map<string, Entry>) {
    forall p :: p in view ==> view[p].filePath == p
  }

  lemma {:induction false} OverlayKeyedByPath(entries: seq<Entry>)
    ensures KeyedByPath(Overlay(map[], entries))
  {
    if entries != [] {
      OverlayKeyedByPath(entries[..|entries| - 1]);
    }
  }

  lemma {:induction false} HitsExact(view: map<string, Entry>, paths: seq<string>, query: Query, lower: string -> string)
    requires KeyedByPath(view) && forall p :: p in paths ==> p in view
    ensures var hits := Hits(view, paths, query, lower);
      && (forall h :: h in hits ==> h.entry.filePath in paths && HitFor(view[h.entry.filePath], query, lower) == Some(h))
      && (forall p :: p in paths && HitFor(view[p], query, lower).Some? ==> HitFor(view[p], query, lower).value in hits)
  {
    if paths != [] {
      var init, last := paths[..|paths| - 1], paths[|paths| - 1];
      assert paths == init + [last];
      HitsExact(view, init, query, lower);
    }
  }

  lemma {:induction false} HitsAscend(view: map<string, Entry>, paths: seq<string>, query: Query, lower: string -> string)
    requires KeyedByPath(view) && Ascending(paths) && forall p :: p in paths ==> p in view
    ensures var hits := Hits(view, paths, query, lower);
      forall i, j :: 0 <= i < j < |hits| ==> Leq(hits[i].entry.filePath, hits[j].entry.filePath)
  {
    if paths != [] {
      var n := |paths| - 1;
      HitsAscend(view, paths[..n], query, lower);
      HitsStep(view, paths, n, query, lower);
      assert paths[..n + 1] == paths;
      var before := Hits(view, paths[..n], query, lower);
      forall i | 0 <= i < |before| ensures Leq(before[i].entry.filePath, paths[n]) {
        HitsComeBefore(view, paths, n, query, lower, i);
      }
    }
  }

  lemma HitsComeBefore(
    view: map<string, Entry>, paths: seq<string>, n: nat, query: Query, lower: string -> string, i: nat)
    requires KeyedByPath(view) && Ascending(paths) && (forall p :: p in paths ==> p in view) && n < |paths|
    requires i < |Hits(view, paths[..n], query, lower)|
    ensures Leq(Hits(view, paths[..n], query, lower)[i].entry.filePath, paths[n])
  {
    var before := Hits(view, paths[..n], query, lower);
    HitsExact(view, paths[..n], query, lower);
    assert before[i] in before;
    var k :| 0 <= k < n && paths[..n][k] == before[i].entry.filePath;
    assert paths[k] == paths[..n][k];
  }

  /** The results are matches only, in path order, at most `limit`; and a match is left out only when
      the limit is reached and its path is not before any result's. */
  ghost predicate FirstMatches(results: seq<Hit>, view: map<string, Entry>, query: Query, lower: string -> string) {
    && |results| <= Max(0, query.limit)
    && (forall i, j :: 0 <= i < j < |results| ==> Leq(results[i].entry.filePath, results[j].entry.filePath))
    && (forall h :: h in results ==>
          h.entry.filePath in view && HitFor(view[h.entry.filePath], query, lower) == Some(h))
    && (forall p :: p in view && HitFor(view[p], query, lower).Some? && HitFor(view[p], query, lower).value !in results ==>
          |results| == Max(0, query.limit) && forall h :: h in results ==> Leq(h.entry.filePath, p))
  }

  /** A loaded index files every entry under its own path. */
  lemma LoadedKeyedByPath(disk: Disk)
    requires Load(disk).View?
    ensures KeyedByPath(Load(disk).entries)
  {
    OverlayKeyedByPath(Committed(disk.manifest.manifest, disk.files).value);
  }

  /** Whatever is on disk: searching a readable index gives its first matches, and nothing for a blank
      query. */
  lemma SearchIsFirstMatches(disk: Disk, query: Query, lower: string -> string)
    requires Load(disk).View?
    ensures var results := Search(Load(disk).entries, query, lower);
      if Blank(query.text) then results == [] else FirstMatches(results, Load(disk).entries, query, lower)
  {
    LoadedKeyedByPath(disk);
    if !Blank(query.text) {
      SearchGivesFirstMatches(Load(disk).entries, query, lower);
    }
  }

  lemma SearchGivesFirstMatches(view: map<string, Entry>, query: Query, lower: string -> string)
    requires KeyedByPath(view) && !Blank(query.text)
    ensures FirstMatches(Search(view, query, lower), view, query, lower)
  {
    var paths := Sorted(view.Keys);
    HitsExact(view, paths, query, lower);
    HitsAscend(view, paths, query, lower);
    var hits := Hits(view, paths, query, lower);
    TakeKeepsFirst(hits, query.limit);
    forall p | p in view && HitFor(view[p], query, lower).Some?
      ensures HitFor(view[p], query, lower).value in hits && HitFor(view[p], query, lower).value.entry.filePath == p
    {
      assert p in paths;
    }
  }

  /** Of an ascending list, the elements a limit drops come after all it keeps. */
  lemma TakeKeepsFirst(hits: seq<Hit>, limit: int)
    requires forall i, j :: 0 <= i < j < |hits| ==> Leq(hits[i].entry.filePath, hits[j].entry.filePath)
    ensures var kept := Take(hits, limit);
      && |kept| <= Max(0, limit)
      && (forall i, j :: 0 <= i < j < |kept| ==> Leq(kept[i].entry.filePath, kept[j].entry.filePath))
      && (forall h :: h in kept ==> h in hits)
      && (forall x :: x in hits && x !in kept ==>
            |kept| == Max(0, limit) && forall h :: h in kept ==> Leq(h.entry.filePath, x.entry.filePath))
  {
    var kept := Take(hits, limit);
    assert forall j :: 0 <= j < |kept| ==> kept[j] == hits[j] && hits[j] in kept;
  }

  // ------------------------------------------------------- slow readers

  predicate Quiet(action: Action) {
    action.Put? || action.Delete? || action.Index?
  }

  /** Snapshot isolation: a reader that read the manifest early and the files later, while the one
      writer went on with any number of finished or interrupted operations, still loads exactly the
      view that manifest committed. */
  lemma {:induction false} EarlierManifestStaysReadable(s: State, resolve: Resolver, actions: seq<Action>)
    requires DiskInv(s.disk) && s.disk.manifest.GoodManifest?
    requires forall i :: 0 <= i < |actions| ==> Quiet(actions[i])
    ensures var m := s.disk.manifest.manifest; var t := Run(s, resolve, actions);
      && DiskInv(t.disk)
      && t.disk.manifest.GoodManifest? && t.disk.manifest.manifest.generation >= m.generation
      && SameReferenced(m, s.disk.files, t.disk.files)
      && Load(Disk(GoodManifest(m), t.disk.files)) == Load(s.disk)
  {
    var m := s.disk.manifest.manifest;
    if actions != [] {
      var init, last := actions[..|actions| - 1], actions[|actions| - 1];
      assert forall i :: 0 <= i < |init| ==> init[i] == actions[i];
      EarlierManifestStaysReadable(s, resolve, init);
      assert Quiet(last);
      QuietStep(Run(s, resolve, init), resolve, last, m);
    }
    OrphansNeverRead(m, s.disk.files, Run(s, resolve, actions).disk.files);
  }

  lemma QuietIndex(disk: Disk, site: Site, resolve: Resolver, op: Operation, writes: nat, m: Manifest)
    requires ManifestInv(m)
    requires DiskInv(disk) && disk.manifest.GoodManifest? && m.generation <= disk.manifest.manifest.generation
    ensures var after := Write(disk, CommitOf(disk, site, resolve, op), writes);
      && DiskInv(after)
      && after.manifest.GoodManifest? && m.generation <= after.manifest.manifest.generation
      && SameReferenced(m, disk.files, after.files)
  {
    OperationKeepsDiskInv(disk, site, resolve, op, writes);
  }

  lemma QuietStep(u: State, resolve: Resolver, action: Action, m: Manifest)
    requires Quiet(action) && ManifestInv(m)
    requires DiskInv(u.disk) && u.disk.manifest.GoodManifest? && m.generation <= u.disk.manifest.manifest.generation
    ensures var t := Apply(u, resolve, action);
      && DiskInv(t.disk)
      && t.disk.manifest.GoodManifest? && m.generation <= t.disk.manifest.manifest.generation
      && SameReferenced(m, u.disk.files, t.disk.files)
  {
    if action.Index? {
      QuietIndex(u.disk, u.site, resolve, action.op, action.writes, m);
    }
  }

  // ------------------------------------------------ two spellings of a path

  lemma KindDirsAreFlat(dir: string)
    requires dir in KIND_DIRS
    ensures '/' !in dir
  {
  }

  /** A receipt in a directory of any other name is never scanned; the Capital World audits that every
      work loop hands to an update lie in such a one. */
  lemma OtherDirectoriesNotScanned(dir: string, name: string)
    requires dir !in KIND_DIRS && '/' !in dir
    ensures !Scanned(Spell(dir, name))
  {
    var rel := Spell(dir, name);
    assert rel[|dir|] == '/' && rel[..|dir|] == dir;
    assert forall k :: 0 <= k < |dir| ==> rel[k] == dir[k] && rel[k] != '/';
    forall slash | 0 <= slash < |rel| ensures !ScannedAt(rel, slash) {
      assert |dir| < slash ==> rel[..slash][|dir|] == '/';
      if rel[..slash] in KIND_DIRS {
        KindDirsAreFlat(rel[..slash]);
      }
    }
  }

  lemma AuditsNotScanned(name: string)
    ensures !Scanned(Spell("capital-world-audits", name))
  {
    OtherDirectoriesNotScanned("capital-world-audits", name);
  }

  /** Text after the last slash, and text before it, are determined by the whole. */
  lemma SplitAtLastSlash(r1: string, u: string, r2: string, v: string)
    requires Spell(r1, u) == Spell(r2, v) && '/' !in u && '/' !in v
    ensures r1 == r2 && u == v
  {
    var p := Spell(r1, u);
    assert p[|r1|] == '/' && p[|r2|] == '/';
    assert forall k :: |r1| < k < |p| ==> p[k] == u[k - |r1| - 1] && p[k] != '/';
    assert forall k :: |r2| < k < |p| ==> p[k] == v[k - |r2| - 1] && p[k] != '/';
    assert |r1| == |r2|;
    assert r1 == p[..|r1|] && r2 == p[..|r2|] && u == p[|r1| + 1..] && v == p[|r2| + 1..];
  }

  /** Receipts directly under a kind directory have different spellings under different roots. */
  lemma SpellingsDiffer(r1: string, a: string, r2: string, b: string)
    requires Scanned(a) && Scanned(b) && Spell(r1, a) == Spell(r2, b)
    ensures r1 == r2
  {
    var i := OnlySlash(a);
    var j := OnlySlash(b);
    Respell(r1, a, i);
    Respell(r2, b, j);
    SplitAtLastSlash(Spell(r1, a[..i]), a[i + 1..], Spell(r2, b[..j]), b[j + 1..]);
    SplitAtLastSlash(r1, a[..i], r2, b[..j]);
  }

  lemma OnlySlash(rel: string) returns (slash: nat)
    requires Scanned(rel)
    ensures slash < |rel| && rel[slash] == '/' && '/' !in rel[..slash] && '/' !in rel[slash + 1..]
  {
    slash :| 0 <= slash < |rel| && ScannedAt(rel, slash);
    KindDirsAreFlat(rel[..slash]);
  }

  lemma Respell(root: string, rel: string, slash: nat)
    requires slash < |rel| && rel[slash] == '/'
    ensures Spell(root, rel) == Spell(Spell(root, rel[..slash]), rel[slash + 1..])
  {
    assert rel == rel[..slash] + "/" + rel[slash + 1..];
  }

  lemma ScanKeysAreScanned(site: Site, p: string)
    requires p in ScanMap(site)
    ensures exists rel :: Scanned(rel) && p == Spell(site.scanRoot, rel)
  {
    var entries := Gather(ScanItems(site), None).entries;
    OverlayLastWins(map[], entries, p);
    var i :| 0 <= i < |entries| && entries[i].filePath == p;
    ScanGathers(site);
    assert entries[i] in entries;
    var rel :| Scanned(rel) && EntryFor(entries[i], site, site.scanRoot, rel);
  }

  /** A scan lists the very same entry: the same spelled path with the same content. */
  ghost predicate Relisted(site: Site, rel: string)
    requires HasReceipt(site, rel)
  {
    exists r :: Scanned(r) && EntryFor(Entry(Spell(site.realRoot, rel), site.tree[rel].body), site, site.scanRoot, r)
  }

  lemma RelistedIffInScan(site: Site, rel: string)
    requires HasReceipt(site, rel)
    ensures var e := Entry(Spell(site.realRoot, rel), site.tree[rel].body);
      Relisted(site, rel) <==> Lookup(ScanMap(site), e.filePath) == Some(e)
  {
    var entries := Gather(ScanItems(site), None).entries;
    var e := Entry(Spell(site.realRoot, rel), site.tree[rel].body);
    ScanGathers(site);
    ScanMapAgrees(site);
    if Relisted(site, rel) {
      var r :| Scanned(r) && EntryFor(e, site, site.scanRoot, r);
      assert Lookup(ScanMap(site), Spell(site.scanRoot, r)) == Expected(site, r);
    } else if e.filePath in ScanMap(site) {
      ScanKeysAreScanned(site, e.filePath);
      var r :| Scanned(r) && e.filePath == Spell(site.scanRoot, r);
      assert Lookup(ScanMap(site), e.filePath) == Expected(site, r);
    }
  }

  lemma {:induction false} OverlayOfPresent(view: map<string, Entry>, entries: seq<Entry>)
    requires forall e :: e in entries ==> Lookup(view, e.filePath) == Some(e)
    ensures Overlay(view, entries) == view
  {
    if entries != [] {
      OverlayOfPresent(view, entries[..|entries| - 1]);
      assert entries[|entries| - 1] in entries;
    }
  }

  /** An update adds nothing to a rescan exactly when a scan lists every receipt it read. */
  lemma UpdateAddsNothingIff(site: Site, resolve: Resolver, refs: seq<string>)
    ensures Overlay(ScanMap(site), UpdateEntries(site, resolve, refs)) == ScanMap(site) <==>
      forall rel :: rel in ReadBy(site, resolve, refs) ==> Relisted(site, rel)
  {
    var entries, before := UpdateEntries(site, resolve, refs), ScanMap(site);
    UpdateGathers(site, resolve, refs);
    if forall rel :: rel in ReadBy(site, resolve, refs) ==> Relisted(site, rel) {
      forall e | e in entries ensures Lookup(before, e.filePath) == Some(e) {
        var rel :| rel in Targets(site, resolve, refs) && EntryFor(e, site, site.realRoot, rel);
        assert rel in ReadBy(site, resolve, refs);
        RelistedIffInScan(site, rel);
      }
      OverlayOfPresent(before, entries);
    } else {
      var rel :| rel in ReadBy(site, resolve, refs) && !Relisted(site, rel);
      RelistedIffInScan(site, rel);
      ReadIsLaid(before, site, resolve, refs, rel);
    }
  }

  /** Whatever was there, an update leaves each receipt it read under its real path. */
  lemma ReadIsLaid(view: map<string, Entry>, site: Site, resolve: Resolver, refs: seq<string>, rel: string)
    requires rel in ReadBy(site, resolve, refs)
    ensures var e := Entry(Spell(site.realRoot, rel), site.tree[rel].body);
      Lookup(Overlay(view, UpdateEntries(site, resolve, refs)), e.filePath) == Some(e)
  {
    UpdateGathers(site, resolve, refs);
    var entries, targets := UpdateEntries(site, resolve, refs), Targets(site, resolve, refs);
    var rels := iset r | r in targets;
    assert forall e :: e in entries <==> exists r :: r in rels && EntryFor(e, site, site.realRoot, r);
    OverlayReceipts(view, entries, site, site.realRoot, rels, rel);
  }

  lemma RelistedBySpelling(site: Site, rel: string)
    requires HasReceipt(site, rel)
    ensures site.scanRoot == site.realRoot ==> (Relisted(site, rel) <==> Scanned(rel))
    ensures site.scanRoot != site.realRoot && Scanned(rel) ==> !Relisted(site, rel)
  {
    var e := Entry(Spell(site.realRoot, rel), site.tree[rel].body);
    if Relisted(site, rel) {
      var r :| Scanned(r) && EntryFor(e, site, site.scanRoot, r);
      if site.scanRoot == site.realRoot {
        SpellInjective(site.scanRoot, r, rel);
      } else if Scanned(rel) {
        SpellingsDiffer(site.realRoot, rel, site.scanRoot, r);
      }
    } else if site.scanRoot == site.realRoot && Scanned(rel) {
      assert EntryFor(e, site, site.scanRoot, rel);
    }
  }

  /** After a rebuild and one update, with nothing changed in between, the index equals a rescan exactly
      when a scan lists every receipt the update read. With one spelling of paths that means they all lie
      in the scanned directories; with two, a receipt that lies there is never the same entry. */
  lemma SpellingDecidesAgreement(disk: Disk, site: Site, resolve: Resolver, refs: seq<string>, at: int)
    requires DiskInv(disk)
    ensures var rebuilt := Write(disk, RebuildCommit(disk, site, at), 2);
      var after := Load(Write(rebuilt, UpdateCommit(rebuilt, site, resolve, refs, at), 2));
      var read := ReadBy(site, resolve, refs);
      && after.View?
      && (after.entries == ScanMap(site) <==> forall rel :: rel in read ==> Relisted(site, rel))
      && (site.scanRoot == site.realRoot ==>
            (after.entries == ScanMap(site) <==> forall rel :: rel in read ==> Scanned(rel)))
      && (site.scanRoot != site.realRoot && (exists rel :: rel in read && Scanned(rel)) ==>
            after.entries != ScanMap(site))
  {
    RebuiltThenUpdated(disk, site, resolve, refs, at);
    UpdateAddsNothingIff(site, resolve, refs);
    forall rel | rel in ReadBy(site, resolve, refs)
      ensures site.scanRoot == site.realRoot ==> (Relisted(site, rel) <==> Scanned(rel))
      ensures site.scanRoot != site.realRoot && Scanned(rel) ==> !Relisted(site, rel)
    {
      RelistedBySpelling(site, rel);
    }
  }

  lemma RebuiltThenUpdated(disk: Disk, site: Site, resolve: Resolver, refs: seq<string>, at: int)
    requires DiskInv(disk)
    ensures var rebuilt := Write(disk, RebuildCommit(disk, site, at), 2);
      var after := Load(Write(rebuilt, UpdateCommit(rebuilt, site, resolve, refs, at), 2));
      after.View? && after.entries == Overlay(ScanMap(site), UpdateEntries(site, resolve, refs))
  {
    var rebuilt := Write(disk, RebuildCommit(disk, site, at), 2);
    OperationKeepsDiskInv(disk, site, resolve, Rebuild(at), 2);
    CrashLeavesOldOrNew(disk, site, resolve, Rebuild(at), 2);
    CrashLeavesOldOrNew(rebuilt, site, resolve, Update(refs, at), 2);
  }
}
