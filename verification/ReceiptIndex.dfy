/** Checkpoint-plus-segments receipt index (src/finharness/agent_receipt_search.py). */
module ReceiptIndex {
  import opened Common
  import opened StringOrder

  const MAX_REPORTED_FAILURES: nat := 20

  const KIND_DIRS := {
    "agent-runs", "evaluation-reports", "authority-transitions", "deliberation", "domain-memory",
    "agent-work-results", "review-workspaces", "agent-tool-results", "autonomy-admissions"
  }

  // ------------------------------------------------------- receipt sources

  /** What `_entry_from_path` extracts from a receipt, apart from the path. */
  datatype Body = Body(
    receiptId: string, kind: string, subject: Option<string>, status: Option<string>,
    refs: seq<string>, text: string, createdAt: Option<string>)

  /** A receipt file that parses; `modified` is `None` when its stat fails. */
  datatype Source = Receipt(body: Body, modified: Option<string>) | Unreadable

  datatype Entry = Entry(filePath: string, body: Body)

  /** Receipts by path relative to the root. A scan spells paths under the root as given, an
      incremental update under its real path. */
  datatype Site = Site(scanRoot: string, realRoot: string, tree: map<string, Source>)

  /** `resolve_under`: where a reference leads, or `None` when it escapes the root. */
  type Resolver = string -> Option<string>

  function Spell(root: string, rel: string): string {
    root + "/" + rel
  }

  predicate ScannedAt(rel: string, slash: nat) {
    && slash < |rel| && rel[slash] == '/'
    && rel[..slash] in KIND_DIRS
    && '/' !in rel[slash + 1..]
    && EndsWith(rel, ".json")
  }

  // A JSON file directly inside one of the kind directories.
  predicate Scanned(rel: string) {
    exists slash :: 0 <= slash < |rel| && ScannedAt(rel, slash)
  }

  /** One source to index: the spelled path, the name to report, and what is there. */
  datatype Item = Item(filePath: string, reported: string, source: Option<Source>)

  datatype Gathered = Gathered(entries: seq<Entry>, failures: seq<string>, highWater: Option<string>)

  function Raise(highWater: Option<string>, marker: string): Option<string> {
    Some(if highWater.Some? then Larger(highWater.value, marker) else marker)
  }

  /** The entry is kept even when the stat that follows fails; the failure is reported too. */
  function GatherOne(g: Gathered, item: Item): Gathered {
    match item.source
    case Some(Receipt(body, Some(modified))) =>
      g.(entries := g.entries + [Entry(item.filePath, body)],
         highWater := Raise(g.highWater, modified + ":" + item.reported))
    case Some(Receipt(body, None)) =>
      g.(entries := g.entries + [Entry(item.filePath, body)], failures := g.failures + [item.reported])
    case _ => g.(failures := g.failures + [item.reported])
  }

  function Gather(items: seq<Item>, highWater: Option<string>): Gathered {
    if items == [] then Gathered([], [], highWater)
    else GatherOne(Gather(items[..|items| - 1], highWater), items[|items| - 1])
  }

  function Listing(site: Site): (r: seq<string>)
    ensures forall rel :: rel in r <==> rel in site.tree && Scanned(rel)
  {
    Sorted(set rel | rel in site.tree && Scanned(rel))
  }

  function ScanItems(site: Site): seq<Item> {
    var rels := Listing(site);
    seq(|rels|, i requires 0 <= i < |rels| => Item(Spell(site.scanRoot, rels[i]), rels[i], Some(site.tree[rels[i]])))
  }

  /** The longest leading part without a '#'. */
  function BeforeHash(ref: string): (r: string)
    ensures r <= ref && '#' !in r
    ensures r == ref || ref[|r|] == '#'
  {
    if ref == [] || ref[0] == '#' then [] else [ref[0]] + BeforeHash(ref[1..])
  }

  /** `dict.fromkeys`: each reference once, at its first place. */
  function FirstOccurrences(refs: seq<string>): seq<string> {
    if refs == [] then []
    else
      var rest := FirstOccurrences(refs[..|refs| - 1]);
      var last := refs[|refs| - 1];
      if last in rest then rest else rest + [last]
  }

  function UpdateItem(site: Site, resolve: Resolver, ref: string): Item {
    var clean := BeforeHash(ref);
    match resolve(clean)
    case None => Item("", clean, None)
    case Some(rel) => Item(Spell(site.realRoot, rel), clean, if rel in site.tree then Some(site.tree[rel]) else None)
  }

  function UpdateItems(site: Site, resolve: Resolver, refs: seq<string>): seq<Item> {
    var keys := FirstOccurrences(refs);
    seq(|keys|, i requires 0 <= i < |keys| => UpdateItem(site, resolve, keys[i]))
  }

  // ----------------------------------------------------------------- files

  datatype FileName = Checkpoint(generation: nat) | Segment(generation: nat)

  datatype FileContent =
    | CheckpointFile(lines: seq<Entry>)
    | SegmentFile(generation: nat, entries: seq<Entry>)
    | Damaged

  datatype Manifest = Manifest(
    generation: nat,
    checkpointGeneration: nat,
    checkpointRef: FileName,
    indexedEntryCount: nat,
    complete: bool,
    highWater: Option<string>,
    unreadableCount: nat,
    unreadableSources: seq<string>,
    updatedAt: int)

  datatype ManifestFile = NoManifest | BadManifest | GoodManifest(manifest: Manifest)

  datatype Disk = Disk(manifest: ManifestFile, files: map<FileName, FileContent>)

  /** An operation writes one immutable file, then replaces the manifest: its commit point. */
  datatype Commit = Commit(name: FileName, content: FileContent, manifest: Manifest)

  function RebuiltManifest(generation: nat, g: Gathered, at: int): Manifest {
    Manifest(generation, generation, Checkpoint(generation), |g.entries|, g.failures == [],
             g.highWater, |g.failures|, Take(g.failures, MAX_REPORTED_FAILURES), at)
  }

  function UpdatedManifest(m: Manifest, g: Gathered, at: int): Manifest {
    m.(generation := m.generation + 1,
       indexedEntryCount := m.indexedEntryCount + |g.entries|,
       complete := m.complete && g.failures == [],
       highWater := g.highWater,
       unreadableCount := m.unreadableCount + |g.failures|,
       unreadableSources := Take(m.unreadableSources + g.failures, MAX_REPORTED_FAILURES),
       updatedAt := at)
  }

  /** A rebuild starts again at 1 when the manifest cannot be read. */
  function NextGeneration(manifest: ManifestFile): nat {
    if manifest.GoodManifest? then manifest.manifest.generation + 1 else 1
  }

  function CheckpointCommit(generation: nat, g: Gathered, at: int): Commit {
    Commit(Checkpoint(generation), CheckpointFile(g.entries), RebuiltManifest(generation, g, at))
  }

  function SegmentCommit(m: Manifest, g: Gathered, at: int): Commit {
    Commit(Segment(m.generation + 1), SegmentFile(m.generation + 1, g.entries), UpdatedManifest(m, g, at))
  }

  function RebuildCommit(disk: Disk, site: Site, at: int): Commit {
    CheckpointCommit(NextGeneration(disk.manifest), Gather(ScanItems(site), None), at)
  }

  function UpdateCommit(disk: Disk, site: Site, resolve: Resolver, refs: seq<string>, at: int): Commit {
    if !disk.manifest.GoodManifest? then RebuildCommit(disk, site, at)
    else
      var m := disk.manifest.manifest;
      SegmentCommit(m, Gather(UpdateItems(site, resolve, refs), m.highWater), at)
  }

  /** The disk when the process stops after `writes` of the two atomic writes. */
  function Write(disk: Disk, c: Commit, writes: nat): Disk {
    if writes == 0 then disk
    else
      var files := disk.files[c.name := c.content];
      if writes == 1 then Disk(disk.manifest, files) else Disk(GoodManifest(c.manifest), files)
  }

  // ---------------------------------------------------------------- reader

  function SegmentEntries(files: map<FileName, FileContent>, after: nat, upTo: nat): Option<seq<Entry>>
    decreases upTo
  {
    if upTo <= after then Some([])
    else
      var earlier := SegmentEntries(files, after, upTo - 1);
      var name := Segment(upTo);
      if earlier.None? || name !in files || !files[name].SegmentFile? || files[name].generation != upTo then None
      else Some(earlier.value + files[name].entries)
  }

  /** Every entry a manifest commits to, oldest first, or `None` when some file cannot be used. */
  function Committed(m: Manifest, files: map<FileName, FileContent>): Option<seq<Entry>> {
    var updates := SegmentEntries(files, m.checkpointGeneration, m.generation);
    if m.checkpointRef !in files || !files[m.checkpointRef].CheckpointFile? || updates.None? then None
    else Some(files[m.checkpointRef].lines + updates.value)
  }

  function Overlay(view: map<string, Entry>, entries: seq<Entry>): map<string, Entry> {
    if entries == [] then view
    else
      var last := entries[|entries| - 1];
      Overlay(view, entries[..|entries| - 1])[last.filePath := last]
  }

  datatype View = Missing | Corrupt | View(entries: map<string, Entry>, manifest: Manifest)

  function Load(disk: Disk): View {
    match disk.manifest
    case NoManifest => Missing
    case BadManifest => Corrupt
    case GoodManifest(m) =>
      var committed := Committed(m, disk.files);
      if committed.None? then Corrupt else View(Overlay(map[], committed.value), m)
  }

  predicate Current(v: View) {
    v.View? && v.manifest.complete
  }

  // ---------------------------------------------------------------- search

  datatype Query = Query(text: string, kinds: Option<set<string>>, limit: int)

  datatype SearchField = InReceiptId | InStatus | InKind | InRefs | InText

  datatype Hit = Hit(entry: Entry, matchedOn: seq<SearchField>, snippet: Option<string>)

  /** `lower` is the library's case folding. */
  function MatchedOn(e: Body, q: string, lower: string -> string): seq<SearchField> {
    (if Contains(lower(e.receiptId), q) then [InReceiptId] else [])
    + (if e.status.Some? && e.status.value != "" && Contains(lower(e.status.value), q) then [InStatus] else [])
    + (if Contains(lower(e.kind), q) then [InKind] else [])
    + (if exists i :: 0 <= i < |e.refs| && Contains(lower(e.refs[i]), q) then [InRefs] else [])
    + (if Contains(lower(e.text), q) then [InText] else [])
  }

  function HitFor(e: Entry, query: Query, lower: string -> string): Option<Hit> {
    var q := lower(query.text);
    if query.kinds.Some? && e.body.kind !in query.kinds.value then None
    else
      var matched := MatchedOn(e.body, q, lower);
      if matched == [] then None
      else Some(Hit(e, matched, if Contains(lower(e.body.text), q) then Some(Take(e.body.text, 200)) else None))
  }

  function Hits(view: map<string, Entry>, paths: seq<string>, query: Query, lower: string -> string): seq<Hit>
    requires forall p :: p in paths ==> p in view
  {
    if paths == [] then []
    else
      var last := HitFor(view[paths[|paths| - 1]], query, lower);
      Hits(view, paths[..|paths| - 1], query, lower) + (if last.Some? then [last.value] else [])
  }

  predicate Blank(s: string) {
    forall i :: 0 <= i < |s| ==> IsSpace(s[i])
  }

  /** The first `limit` matches of a map in path order. */
  function Search(view: map<string, Entry>, query: Query, lower: string -> string): seq<Hit> {
    if Blank(query.text) then [] else Take(Hits(view, Sorted(view.Keys), query, lower), query.limit)
  }

  class IndexFiles {
    var disk: Disk

    constructor (disk: Disk)
      ensures this.disk == disk
    {
      this.disk := disk;
    }

    /** The loop both the scan and the update run: one source after the other. */
    static method ReadSources(items: seq<Item>, highWater: Option<string>) returns (g: Gathered)
      ensures g == Gather(items, highWater)
    {
      g := Gathered([], [], highWater);
      for n := 0 to |items|
        invariant g == Gather(items[..n], highWater)
      {
        assert items[..n + 1][..n] == items[..n];
        g := GatherOne(g, items[n]);
      }
      assert items[..|items|] == items;
    }

    static method ScanReceipts(site: Site) returns (g: Gathered)
      ensures g == Gather(ScanItems(site), None)
    {
      g := ReadSources(ScanItems(site), None);
    }

    /** One immutable file, then the manifest: stops after `writes` of the two writes. */
    method WriteCommit(c: Commit, writes: nat)
      modifies this
      ensures disk == Write(old(disk), c, writes)
    {
      if writes == 0 {
        return;
      }
      disk := disk.(files := disk.files[c.name := c.content]);
      if writes == 1 {
        return;
      }
      disk := disk.(manifest := GoodManifest(c.manifest));
    }

    /** Two or more writes are a finished rebuild. */
    method WriteReceiptSearchIndex(site: Site, at: int, writes: nat)
      modifies this
      ensures disk == Write(old(disk), RebuildCommit(old(disk), site, at), writes)
    {
      var g := ScanReceipts(site);
      WriteCommit(CheckpointCommit(NextGeneration(disk.manifest), g, at), writes);
    }

    method UpdateReceiptSearchIndex(site: Site, resolve: Resolver, refs: seq<string>, at: int, writes: nat)
      modifies this
      ensures disk == Write(old(disk), UpdateCommit(old(disk), site, resolve, refs, at), writes)
    {
      if !disk.manifest.GoodManifest? {
        WriteReceiptSearchIndex(site, at, writes);
        return;
      }
      var m := disk.manifest.manifest;
      var g := ReadSources(UpdateItems(site, resolve, refs), m.highWater);
      WriteCommit(SegmentCommit(m, g, at), writes);
    }

    static method Replay(view: map<string, Entry>, entries: seq<Entry>) returns (r: map<string, Entry>)
      ensures r == Overlay(view, entries)
    {
      r := view;
      for n := 0 to |entries|
        invariant r == Overlay(view, entries[..n])
      {
        assert entries[..n + 1][..n] == entries[..n];
        r := r[entries[n].filePath := entries[n]];
      }
      assert entries[..|entries|] == entries;
    }

    method LoadCommittedEntries() returns (v: View)
      ensures v == Load(disk)
    {
      if !disk.manifest.GoodManifest? {
        return if disk.manifest.NoManifest? then Missing else Corrupt;
      }
      var m := disk.manifest.manifest;
      if m.checkpointRef !in disk.files || !disk.files[m.checkpointRef].CheckpointFile? {
        return Corrupt;
      }
      var lines := disk.files[m.checkpointRef].lines;
      var checkpoint := Replay(map[], lines);
      var entries := ReplaySegments(disk.files, m.checkpointGeneration, m.generation, checkpoint);
      if entries.None? {
        return Corrupt;
      }
      OverlayAppend(map[], lines, SegmentEntries(disk.files, m.checkpointGeneration, m.generation).value);
      v := View(entries.value, m);
    }

    /** The numbered segments after the checkpoint, each replayed over what came before. */
    static method ReplaySegments(files: map<FileName, FileContent>, after: nat, upTo: nat, view: map<string, Entry>)
      returns (r: Option<map<string, Entry>>)
      ensures var updates := SegmentEntries(files, after, upTo);
        r == if updates.None? then None else Some(Overlay(view, updates.value))
    {
      var entries, generation := view, after;
      while generation < upTo
        invariant after <= generation <= Max(upTo, after)
        invariant SegmentEntries(files, after, generation).Some?
        invariant entries == Overlay(view, SegmentEntries(files, after, generation).value)
      {
        var name := Segment(generation + 1);
        if name !in files || !files[name].SegmentFile? || files[name].generation != generation + 1 {
          UnusableSegment(files, after, generation + 1, upTo);
          return None;
        }
        OverlayAppend(view, SegmentEntries(files, after, generation).value, files[name].entries);
        entries := Replay(entries, files[name].entries);
        generation := generation + 1;
      }
      SegmentsFrom(files, after, generation, upTo);
      return Some(entries);
    }

    static method FirstHits(view: map<string, Entry>, paths: seq<string>, query: Query, lower: string -> string)
      returns (results: seq<Hit>)
      requires forall p :: p in paths ==> p in view
      ensures results == Take(Hits(view, paths, query, lower), query.limit)
    {
      results := [];
      for n := 0 to |paths|
        invariant results == Take(Hits(view, paths[..n], query, lower), query.limit)
      {
        if |results| >= query.limit {
          TakeStable(view, paths, n, query, lower);
          return;
        }
        HitsStep(view, paths, n, query, lower);
        var hit := HitFor(view[paths[n]], query, lower);
        if hit.Some? {
          results := results + [hit.value];
        }
      }
      assert paths[..|paths|] == paths;
    }

    method SearchWithStatus(query: Query, lower: string -> string) returns (results: seq<Hit>, v: View)
      ensures v == Load(disk)
      ensures results == if v.View? then Search(v.entries, query, lower) else []
    {
      v := LoadCommittedEntries();
      results := [];
      if !Blank(query.text) && v.View? {
        results := FirstHits(v.entries, Sorted(v.entries.Keys), query, lower);
      }
    }

    /** The list form refuses anything but a complete, readable index. */
    method SearchReceiptIndex(query: Query, lower: string -> string) returns (r: Result<seq<Hit>, View>)
      ensures r.Ok? <==> Load(disk).View? && Load(disk).manifest.complete
      ensures r.Err? ==> r.error == Load(disk)
      ensures r.Ok? ==> r.value == Search(Load(disk).entries, query, lower)
    {
      var results, v := SearchWithStatus(query, lower);
      r := if Current(v) then Ok(results) else Err(v);
    }
  }

  lemma {:induction false} OverlayAppend(view: map<string, Entry>, a: seq<Entry>, b: seq<Entry>)
    ensures Overlay(view, a + b) == Overlay(Overlay(view, a), b)
  {
    if b == [] {
      assert a + b == a;
    } else {
      var init := b[..|b| - 1];
      assert (a + b)[..|a + b| - 1] == a + init;
      OverlayAppend(view, a, init);
    }
  }

  lemma {:induction false} UnusableSegment(files: map<FileName, FileContent>, after: nat, bad: nat, upTo: nat)
    requires after < bad <= upTo
    requires SegmentEntries(files, after, bad).None?
    ensures SegmentEntries(files, after, upTo).None?
    decreases upTo
  {
    if bad < upTo {
      UnusableSegment(files, after, bad, upTo - 1);
    }
  }

  lemma SegmentsFrom(files: map<FileName, FileContent>, after: nat, a: nat, b: nat)
    requires after <= a && a <= Max(b, after) && !(a < b)
    ensures SegmentEntries(files, after, a) == SegmentEntries(files, after, b)
  {
  }

  lemma HitsStep(view: map<string, Entry>, paths: seq<string>, n: nat, query: Query, lower: string -> string)
    requires n < |paths| && forall p :: p in paths ==> p in view
    ensures var hit := HitFor(view[paths[n]], query, lower);
      Hits(view, paths[..n + 1], query, lower) ==
        Hits(view, paths[..n], query, lower) + (if hit.Some? then [hit.value] else [])
  {
    assert paths[..n + 1][..n] == paths[..n];
  }

  lemma {:induction false} TakeStable(
    view: map<string, Entry>, paths: seq<string>, n: nat, query: Query, lower: string -> string)
    requires n <= |paths| && forall p :: p in paths ==> p in view
    requires |Take(Hits(view, paths[..n], query, lower), query.limit)| >= query.limit
    ensures Take(Hits(view, paths[..n], query, lower), query.limit) == Take(Hits(view, paths, query, lower), query.limit)
    decreases |paths| - n
  {
    if n < |paths| {
      assert paths[..n + 1][..n] == paths[..n];
      TakeStable(view, paths, n + 1, query, lower);
    } else {
      assert paths[..n] == paths;
    }
  }
}
