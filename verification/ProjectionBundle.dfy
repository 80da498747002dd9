/** Greedy packing of projected packs under a profile budget (src/finharness/agent_context_projection.py). */
module ProjectionBundle {
  import opened Common
  import opened StableSort
  import opened Json
  import opened Refs
  import opened ContextProjection
  import opened ContextBudget

  /** A pack as the bundle reads it: its JSON, and what it picks out of it. */
  datatype Item = Item(
    json: Json,
    name: string,
    priority: int,
    sourceRefs: seq<string>,
    receiptRefs: seq<string>,
    receiptRef: seq<string>,
    contextPackRefs: seq<string>)

  // ------------------------------------------------- what is picked out

  function TextsOf(items: seq<Json>): seq<string> {
    if items == [] then [] else (if items[0].Str? then [items[0].s] else []) + TextsOf(items[1..])
  }

  predicate OnlyTexts(items: seq<Json>) {
    forall i :: 0 <= i < |items| ==> items[i].Str?
  }

  /** _field_values: `texts` is what a field holding nothing, one text or a list of texts gives. */
  predicate HoldsTexts(value: Option<Json>, texts: seq<string>) {
    match value
    case None => texts == []
    case Some(Null) => texts == []
    case Some(Str(s)) => texts == [s]
    case Some(Arr(items)) => OnlyTexts(items) && texts == Visible(TextsOf(items))
    case _ => false
  }

  /** _pack_priority: that of the pack's projection, or 100. */
  predicate HoldsPriority(projection: Option<Json>, priority: int) {
    if projection.Some? && projection.value.Obj? then
      var p := Lookup(projection.value.fields, "priority");
      if p.Some? then priority >= 0 && p.value == Number(priority) else priority == 100
    else priority == 100
  }

  /** The item is a JSON object and says of it what the code reads there. */
  predicate Describes(x: Item) {
    && x.json.Obj?
    && var f := x.json.fields;
       && Lookup(f, "name") == Some(Str(x.name))
       && HoldsPriority(Lookup(f, "projection"), x.priority)
       && HoldsTexts(Lookup(f, "source_refs"), x.sourceRefs)
       && HoldsTexts(Lookup(f, "receipt_refs"), x.receiptRefs)
       && HoldsTexts(Lookup(f, "receipt_ref"), x.receiptRef)
       && HoldsTexts(Lookup(f, "context_pack_refs"), x.contextPackRefs)
  }

  function ItemOf(p: Projected): Item {
    Item(ProjectedJson(p), p.name, p.projection.spec.priority, Visible(p.sourceRefs), Visible(p.receiptRefs),
         if p.receiptRef.Some? then [p.receiptRef.value] else [], Visible(p.contextPackRefs))
  }

  lemma {:induction false} LookupAppend(a: seq<Field>, b: seq<Field>, key: string)
    ensures Lookup(a + b, key) == if Lookup(a, key).Some? then Lookup(a, key) else Lookup(b, key)
  {
    if a == [] {
      assert a + b == b;
    } else {
      assert (a + b)[1..] == a[1..] + b;
      LookupAppend(a[1..], b, key);
    }
  }

  lemma {:induction false} LookupFirst(fields: seq<Field>, i: nat)
    requires i < |fields| && forall j :: 0 <= j < i ==> fields[j].key != fields[i].key
    ensures Lookup(fields, fields[i].key) == Some(fields[i].value)
  {
    if i > 0 {
      assert fields[1..][i - 1] == fields[i];
      LookupFirst(fields[1..], i - 1);
    }
  }

  lemma {:induction false} LookupMissing(fields: seq<Field>, key: string)
    requires forall j :: 0 <= j < |fields| ==> fields[j].key != key
    ensures Lookup(fields, key) == None
  {
    if fields != [] {
      LookupMissing(fields[1..], key);
    }
  }

  lemma {:induction false} TextsOfStrings(items: seq<Json>, texts: seq<string>)
    requires |items| == |texts| && forall i :: 0 <= i < |texts| ==> items[i] == Str(texts[i])
    ensures TextsOf(items) == texts
  {
    if texts != [] {
      assert texts == [texts[0]] + texts[1..];
      TextsOfStrings(items[1..], texts[1..]);
    }
  }

  lemma StringsHold(texts: seq<string>)
    ensures HoldsTexts(Some(Strings(texts)), Visible(texts))
  {
    TextsOfStrings(TextItems(texts), texts);
  }

  lemma FixedLookups(p: Projected)
    ensures var f := FixedFields(p);
      && Lookup(f, "name") == Some(Str(p.name))
      && Lookup(f, "source_refs") == Some(Strings(p.sourceRefs))
      && Lookup(f, "context_pack_refs") == Some(Strings(p.contextPackRefs))
      && Lookup(f, "receipt_refs") == Lookup(f, "receipt_ref") == Lookup(f, "projection") == None
  {
    var f := FixedFields(p);
    LookupFirst(f, 0);
    LookupFirst(f, 3);
    LookupFirst(f, 7);
    LookupMissing(f, "receipt_refs");
    LookupMissing(f, "receipt_ref");
    LookupMissing(f, "projection");
  }

  lemma ReceiptLookups(p: Projected)
    ensures var f := ReceiptFields(p);
      && Lookup(f, "receipt_refs") == (if p.receiptRefs != [] then Some(Strings(p.receiptRefs)) else None)
      && Lookup(f, "receipt_ref") == (if p.receiptRef.Some? then Some(Str(p.receiptRef.value)) else None)
      && Lookup(f, "projection") == None
  {
    var a := if p.receiptRefs != [] then [Field("receipt_refs", Strings(p.receiptRefs))] else [];
    var b := if p.receiptRef.Some? then [Field("receipt_ref", Str(p.receiptRef.value))] else [];
    LookupAppend(a, b, "receipt_refs");
    LookupAppend(a, b, "receipt_ref");
    LookupAppend(a, b, "projection");
  }

  lemma ProjectedLookup(p: Projected, key: string)
    ensures var (a, b) := (Lookup(FixedFields(p), key), Lookup(ReceiptFields(p), key));
      Lookup(ProjectedJson(p).fields, key) ==
        if a.Some? then a else if b.Some? then b else Lookup([Field("projection", ProjectionJson(p.projection))], key)
  {
    LookupAppend(FixedFields(p), ReceiptFields(p), key);
    LookupAppend(ContentFields(p), [Field("projection", ProjectionJson(p.projection))], key);
  }

  lemma PriorityHeld(p: Projection)
    ensures HoldsPriority(Some(ProjectionJson(p)), p.spec.priority)
  {
    var key, chars := "priority", [Field("projected_chars", Number(p.projectedChars))];
    LookupMissing(OriginFields(p), key);
    LookupFirst(SpecFields(p.spec), 0);
    LookupAppend(OriginFields(p), SpecFields(p.spec), key);
    LookupAppend(OriginFields(p) + SpecFields(p.spec), OmissionFields(p), key);
    LookupAppend(OriginFields(p) + SpecFields(p.spec) + OmissionFields(p), StatusFields(p), key);
    LookupAppend(ProjectionFields(p), chars, key);
  }

  /** What the bundle reads of a projected pack is what its JSON holds. */
  lemma ProjectedDescribed(p: Projected)
    ensures Describes(ItemOf(p))
  {
    FixedLookups(p);
    ReceiptLookups(p);
    ProjectedLookup(p, "name");
    ProjectedLookup(p, "projection");
    ProjectedLookup(p, "source_refs");
    ProjectedLookup(p, "receipt_refs");
    ProjectedLookup(p, "receipt_ref");
    ProjectedLookup(p, "context_pack_refs");
    PriorityHeld(p.projection);
    StringsHold(p.sourceRefs);
    StringsHold(p.receiptRefs);
    StringsHold(p.contextPackRefs);
  }

  // ------------------------------------------------------- priority order

  function PriorityOf(x: Item): real {
    x.priority as real
  }

  /** `sorted(packs, key=_pack_priority)` */
  function SortByPriority(packs: seq<Item>): seq<Item> {
    SortBy(packs, PriorityOf)
  }

  predicate Ordered(s: seq<Item>) {
    forall i, j :: 0 <= i < j < |s| ==> s[i].priority <= s[j].priority
  }

  /** Ordered by priority, and the packs of each priority keep the order they came in: so the sort
      is a stable rearrangement of exactly the given packs. */
  lemma SortIsStable(packs: seq<Item>, priority: int)
    ensures Ordered(SortByPriority(packs))
    ensures multiset(SortByPriority(packs)) == multiset(packs)
    ensures |SortByPriority(packs)| == |packs| && forall x :: x in SortByPriority(packs) <==> x in packs
    ensures Rank(SortByPriority(packs), PriorityOf, priority as real) == Rank(packs, PriorityOf, priority as real)
  {
    SortOrders(packs, PriorityOf);
    SortSameSize(packs, PriorityOf);
    StableSort.SortIsStable(packs, PriorityOf, priority as real);
    var s := SortByPriority(packs);
    forall i, j | 0 <= i < j < |s| ensures s[i].priority <= s[j].priority {
      assert PriorityOf(s[i]) <= PriorityOf(s[j]);
    }
  }

  // ---------------------------------------------------------------- bundle

  function Concat(lists: seq<seq<string>>): seq<string> {
    if lists == [] then [] else lists[0] + Concat(lists[1..])
  }

  function AllSourceRefs(packs: seq<Item>): seq<string> {
    Concat(seq(|packs|, i requires 0 <= i < |packs| => packs[i].sourceRefs))
  }

  function AllReceiptRefs(packs: seq<Item>): seq<string> {
    Concat(seq(|packs|, i requires 0 <= i < |packs| => packs[i].receiptRefs))
    + Concat(seq(|packs|, i requires 0 <= i < |packs| => packs[i].receiptRef))
  }

  function AllContextPackRefs(packs: seq<Item>): seq<string> {
    Concat(seq(|packs|, i requires 0 <= i < |packs| => packs[i].contextPackRefs))
  }

  function PackJsons(packs: seq<Item>): seq<Json> {
    seq(|packs|, i requires 0 <= i < |packs| => packs[i].json)
  }

  const BUNDLE_NAME: string := "capital_context" + "_projection"

  const BUNDLE_KIND: string := "capital_context" + "_bundle"

  function HeaderFields(profile: Profile, sourceRefs: seq<string>, receiptRefs: seq<string>, contextPackRefs: seq<string>)
    : seq<Field>
  {
    [
      Field("name", Str(BUNDLE_NAME)),
      Field("available", Bool(true)),
      Field("profile_name", Str(profile.name)),
      Field("source_refs", Strings(CleanRefs(sourceRefs))),
      Field("receipt_refs", Strings(CleanRefs(receiptRefs))),
      Field("context_pack_refs", Strings(CleanRefs(contextPackRefs))),
      Field("non_claims", Strings(profile.nonClaims)),
      Field("execution_allowed", Bool(false))
    ]
  }

  /** Everything but the truncated flag and the gap list. */
  function ShellFields(profile: Profile, packs: seq<Item>): seq<Field> {
    HeaderFields(profile, AllSourceRefs(packs), AllReceiptRefs(packs), AllContextPackRefs(packs))
    + [Field("packs", Arr(PackJsons(packs)))]
  }

  function SummaryFields(profile: Profile, count: nat): seq<Field> {
    [
      Field("profile_name", Str(profile.name)),
      Field("projection_kind", Str(BUNDLE_KIND)),
      Field("total_max_chars", Number(profile.totalMaxChars)),
      Field("original_pack_count", Number(count)),
      Field("execution_allowed", Bool(false)),
      Field("authority_transition", Bool(false))
    ]
  }

  function BundleJson(profile: Profile, count: nat, packs: seq<Item>, gaps: seq<string>, truncated: bool): Json {
    Obj(ShellFields(profile, packs)
        + [Field("projection", Obj(SummaryFields(profile, count) + [Field("truncated", Bool(truncated))]))]
        + [Field("data_gaps", Strings(gaps))])
  }

  function BundleSize(profile: Profile, count: nat, packs: seq<Item>, gaps: seq<string>, truncated: bool): nat {
    Size(BundleJson(profile, count, packs, gaps, truncated), Dumps)
  }

  function OmissionNotice(profile: Profile, pack: Item): string {
    "context projection omitted pack " + pack.name + " to stay under " + Decimal(profile.totalMaxChars) + " chars"
  }

  /** `accepted` is how many gaps were recorded when the last pack was accepted; `taken` tells for
      each pack in order whether it was. */
  datatype Packing = Packing(included: seq<Item>, gaps: seq<string>, accepted: nat, taken: seq<bool>)

  function PackOne(profile: Profile, count: nat, p: Packing, pack: Item): Packing {
    if BundleSize(profile, count, p.included + [pack], p.gaps, false) <= profile.totalMaxChars then
      Packing(p.included + [pack], p.gaps, |p.gaps|, p.taken + [true])
    else Packing(p.included, p.gaps + [OmissionNotice(profile, pack)], p.accepted, p.taken + [false])
  }

  function PackAll(profile: Profile, count: nat, gaps: seq<string>, ordered: seq<Item>): Packing {
    if ordered == [] then Packing([], gaps, 0, [])
    else PackOne(profile, count, PackAll(profile, count, gaps, ordered[..|ordered| - 1]), ordered[|ordered| - 1])
  }

  datatype Bundle = Bundle(packs: seq<Item>, dataGaps: seq<string>, truncated: bool)

  function BundleOf(p: Packing): Bundle {
    Bundle(p.included, CleanRefs(p.gaps), p.gaps != [])
  }

  function SizeOf(profile: Profile, count: nat, b: Bundle): nat {
    BundleSize(profile, count, b.packs, b.dataGaps, b.truncated)
  }

  lemma PackAllStep(profile: Profile, count: nat, gaps: seq<string>, ordered: seq<Item>, n: nat)
    requires n < |ordered|
    ensures PackAll(profile, count, gaps, ordered[..n + 1]) ==
      PackOne(profile, count, PackAll(profile, count, gaps, ordered[..n]), ordered[n])
  {
    assert ordered[..n + 1][..n] == ordered[..n];
  }

  /** _projection_bundle */
  method BuildBundle(profile: Profile, packs: seq<Item>, count: nat, gaps: seq<string>) returns (out: Bundle)
    ensures out == BundleOf(PackAll(profile, count, gaps, SortByPriority(packs)))
  {
    var ordered := SortByPriority(packs);
    var included: seq<Item>, bundleGaps := [], gaps;
    ghost var p := PackAll(profile, count, gaps, []);
    for n := 0 to |ordered|
      invariant p == PackAll(profile, count, gaps, ordered[..n])
      invariant included == p.included && bundleGaps == p.gaps
    {
      PackAllStep(profile, count, gaps, ordered, n);
      p := PackOne(profile, count, p, ordered[n]);
      included, bundleGaps := AddPack(profile, count, included, bundleGaps, ordered[n]);
    }
    assert ordered[..|ordered|] == ordered;
    var cleaned := RefsLoop(bundleGaps);
    out := Bundle(included, cleaned, bundleGaps != []);
  }

  /** One turn of the loop. */
  method AddPack(profile: Profile, count: nat, included: seq<Item>, gaps: seq<string>, pack: Item)
    returns (included': seq<Item>, gaps': seq<string>)
    ensures var fits := BundleSize(profile, count, included + [pack], gaps, false) <= profile.totalMaxChars;
      && included' == (if fits then included + [pack] else included)
      && gaps' == (if fits then gaps else gaps + [OmissionNotice(profile, pack)])
  {
    included', gaps' := included, gaps;
    if BundleSize(profile, count, included + [pack], gaps, false) <= profile.totalMaxChars {
      included' := included + [pack];
    } else {
      gaps' := gaps + [OmissionNotice(profile, pack)];
    }
  }

  // ----------------------------------------------------------- accounting

  /** The elements of `s` whose flag is set. */
  function Chosen<T>(s: seq<T>, flags: seq<bool>): seq<T>
    requires |s| == |flags|
  {
    if s == [] then []
    else Chosen(s[..|s| - 1], flags[..|s| - 1]) + (if flags[|s| - 1] then [s[|s| - 1]] else [])
  }

  /** One turn: the pack is taken, or its notice is recorded. */
  function Turn(p: Packing, pack: Item, taken: bool, notice: string): Packing {
    if taken then Packing(p.included + [pack], p.gaps, |p.gaps|, p.taken + [true])
    else Packing(p.included, p.gaps + [notice], p.accepted, p.taken + [false])
  }

  lemma LastTurn(profile: Profile, count: nat, gaps: seq<string>, ordered: seq<Item>) returns (q: Packing, taken: bool)
    requires ordered != []
    ensures var last := ordered[|ordered| - 1];
      && q == PackAll(profile, count, gaps, ordered[..|ordered| - 1])
      && PackAll(profile, count, gaps, ordered) == Turn(q, last, taken, OmissionNotice(profile, last))
      && (taken <==> BundleSize(profile, count, q.included + [last], q.gaps, false) <= profile.totalMaxChars)
  {
    q := PackAll(profile, count, gaps, ordered[..|ordered| - 1]);
    taken := BundleSize(profile, count, q.included + [ordered[|ordered| - 1]], q.gaps, false) <= profile.totalMaxChars;
  }

  /** Exactly the packs flagged as taken are included, and the others are named in the gaps. */
  predicate Selects(profile: Profile, gaps: seq<string>, ordered: seq<Item>, p: Packing) {
    && |p.taken| == |ordered|
    && p.included == Chosen(ordered, p.taken)
    && p.accepted <= |p.gaps|
    && gaps <= p.gaps
    && (forall i :: 0 <= i < |ordered| && !p.taken[i] ==> OmissionNotice(profile, ordered[i]) in p.gaps)
  }

  lemma TurnSelects(profile: Profile, gaps: seq<string>, ordered: seq<Item>, q: Packing, taken: bool)
    requires ordered != [] && Selects(profile, gaps, ordered[..|ordered| - 1], q)
    ensures var last := ordered[|ordered| - 1];
      Selects(profile, gaps, ordered, Turn(q, last, taken, OmissionNotice(profile, last)))
  {
    var init, last := ordered[..|ordered| - 1], ordered[|ordered| - 1];
    var p := Turn(q, last, taken, OmissionNotice(profile, last));
    assert p.taken[..|init|] == q.taken;
    forall i | 0 <= i < |ordered| && !p.taken[i] ensures OmissionNotice(profile, ordered[i]) in p.gaps {
      if i < |init| {
        assert init[i] == ordered[i] && !q.taken[i];
      }
    }
  }

  lemma {:induction false} PackingSelects(profile: Profile, count: nat, gaps: seq<string>, ordered: seq<Item>)
    ensures Selects(profile, gaps, ordered, PackAll(profile, count, gaps, ordered))
  {
    if ordered != [] {
      PackingSelects(profile, count, gaps, ordered[..|ordered| - 1]);
      var q, taken := LastTurn(profile, count, gaps, ordered);
      TurnSelects(profile, gaps, ordered, q, taken);
    }
  }

  lemma NoticeIsTrimmed(profile: Profile, pack: Item)
    ensures Strip(OmissionNotice(profile, pack)) == OmissionNotice(profile, pack)
  {
    var n := OmissionNotice(profile, pack);
    assert n[0] == 'c' && n[|n| - 1] == 's';
    StripOfTrimmed(n);
  }

  /** A notice names its pack. */
  lemma NoticeNamesPack(profile: Profile, pack: Item)
    ensures Contains(OmissionNotice(profile, pack), pack.name)
  {
    var head := "context projection omitted pack ";
    var tail := " to stay under " + Decimal(profile.totalMaxChars) + " chars";
    assert OmissionNotice(profile, pack) == head + (pack.name + tail);
    assert OmissionNotice(profile, pack)[|head|..] == pack.name + tail;
  }

  /** The finished bundle holds the packs included, each gap given or recorded once and without blanks at
      either end, and is flagged exactly when there is any. */
  lemma BundleExact(p: Packing)
    ensures var b := BundleOf(p);
      && b.packs == p.included && (b.truncated <==> p.gaps != []) && Distinct(b.dataGaps)
      && (forall x :: x in b.dataGaps <==> x != "" && exists i :: 0 <= i < |p.gaps| && Strip(p.gaps[i]) == x)
  {
    CleanRefsExact(p.gaps);
  }

  /** The bundle is a selection in priority order, and every pack given is included or named in an
      omission gap of the finished bundle. */
  lemma EveryPackAccountedFor(profile: Profile, count: nat, gaps: seq<string>, packs: seq<Item>)
    ensures var ordered := SortByPriority(packs); var p := PackAll(profile, count, gaps, ordered);
      && |p.taken| == |ordered| && p.included == Chosen(ordered, p.taken)
      && Ordered(ordered)
      && forall i :: 0 <= i < |ordered| && !p.taken[i] ==> OmissionNotice(profile, ordered[i]) in BundleOf(p).dataGaps
  {
    var ordered := SortByPriority(packs);
    SortIsStable(packs, 0);
    PackingSelects(profile, count, gaps, ordered);
    var p := PackAll(profile, count, gaps, ordered);
    CleanRefsExact(p.gaps);
    forall i | 0 <= i < |ordered| && !p.taken[i] ensures OmissionNotice(profile, ordered[i]) in BundleOf(p).dataGaps {
      NoticeIsTrimmed(profile, ordered[i]);
    }
  }

  // ----------------------------------------------------------------- size

  /** Size of a list of references once cleaned. */
  function RefsSize(refs: seq<string>): nat {
    Size(Strings(CleanRefs(refs)), Dumps)
  }

  /** What a bundle costs before any pack, reference or gap. */
  function BaseSize(profile: Profile, count: nat): int {
    FieldsCost(HeaderFields(profile, [], [], []), Dumps) + FieldsCost(SummaryFields(profile, count), Dumps)
    + TextSize("packs", Dumps) + TextSize("projection", Dumps) + TextSize("truncated", Dumps) + TextSize("data_gaps", Dumps)
    + 10
  }

  lemma FieldsCostUpdate(f: seq<Field>, i: nat, v: Json, style: Style)
    requires i < |f|
    ensures FieldsCost(f[i := Field(f[i].key, v)], style) == FieldsCost(f, style) - Size(f[i].value, style) + Size(v, style)
  {
    var next := Field(f[i].key, v);
    assert f == f[..i] + [f[i]] + f[i + 1..] && f[i := next] == f[..i] + [next] + f[i + 1..];
    LastFieldCost(f[..i], f[i], style);
    LastFieldCost(f[..i], next, style);
    FieldsCostAppend(f[..i] + [f[i]], f[i + 1..], style);
    FieldsCostAppend(f[..i] + [next], f[i + 1..], style);
  }

  function WithValue(f: seq<Field>, i: nat, v: Json): seq<Field>
    requires i < |f|
  {
    f[i := Field(f[i].key, v)]
  }

  lemma ThreeUpdates(f: seq<Field>, a: Json, b: Json, c: Json)
    requires |f| == 8
    ensures FieldsCost(WithValue(WithValue(WithValue(f, 3, a), 4, b), 5, c), Dumps) ==
      FieldsCost(f, Dumps) - Size(f[3].value, Dumps) - Size(f[4].value, Dumps) - Size(f[5].value, Dumps)
      + Size(a, Dumps) + Size(b, Dumps) + Size(c, Dumps)
  {
    FieldsCostUpdate(f, 3, a, Dumps);
    FieldsCostUpdate(WithValue(f, 3, a), 4, b, Dumps);
    FieldsCostUpdate(WithValue(WithValue(f, 3, a), 4, b), 5, c, Dumps);
  }

  lemma NoRefsSize()
    ensures RefsSize([]) == 2
  {
  }

  lemma HeaderCost(profile: Profile, a: seq<string>, b: seq<string>, c: seq<string>)
    ensures FieldsCost(HeaderFields(profile, a, b, c), Dumps) ==
      FieldsCost(HeaderFields(profile, [], [], []), Dumps) + RefsSize(a) + RefsSize(b) + RefsSize(c) - 6
  {
    var base := HeaderFields(profile, [], [], []);
    var x, y, z := Strings(CleanRefs(a)), Strings(CleanRefs(b)), Strings(CleanRefs(c));
    ThreeUpdates(base, x, y, z);
    HeaderUpdated(profile, a, b, c);
    NoRefsSize();
  }

  lemma HeaderUpdated(profile: Profile, a: seq<string>, b: seq<string>, c: seq<string>)
    ensures var base := HeaderFields(profile, [], [], []);
      && HeaderFields(profile, a, b, c) ==
           WithValue(WithValue(WithValue(base, 3, Strings(CleanRefs(a))), 4, Strings(CleanRefs(b))), 5, Strings(CleanRefs(c)))
      && base[3].value == base[4].value == base[5].value == Strings(CleanRefs([]))
  {
  }

  lemma ShellCost(profile: Profile, packs: seq<Item>)
    ensures FieldsCost(ShellFields(profile, packs), Dumps) ==
      FieldsCost(HeaderFields(profile, [], [], []), Dumps)
      + RefsSize(AllSourceRefs(packs)) + RefsSize(AllReceiptRefs(packs)) + RefsSize(AllContextPackRefs(packs))
      + Size(Arr(PackJsons(packs)), Dumps) + TextSize("packs", Dumps) - 2
  {
    var header := HeaderFields(profile, AllSourceRefs(packs), AllReceiptRefs(packs), AllContextPackRefs(packs));
    HeaderCost(profile, AllSourceRefs(packs), AllReceiptRefs(packs), AllContextPackRefs(packs));
    LastFieldCost(header, Field("packs", Arr(PackJsons(packs))), Dumps);
  }

  /** The parts a bundle's size is made of. */
  lemma BundleSizeExact(profile: Profile, count: nat, packs: seq<Item>, gaps: seq<string>, truncated: bool)
    ensures BundleSize(profile, count, packs, gaps, truncated) ==
      BaseSize(profile, count)
      + RefsSize(AllSourceRefs(packs)) + RefsSize(AllReceiptRefs(packs)) + RefsSize(AllContextPackRefs(packs))
      + Size(Arr(PackJsons(packs)), Dumps) + Size(Bool(truncated), Dumps) + Size(Strings(gaps), Dumps)
  {
    var shell := ShellFields(profile, packs);
    var summary := SummaryFields(profile, count);
    var projection := Field("projection", Obj(summary + [Field("truncated", Bool(truncated))]));
    ShellCost(profile, packs);
    LastFieldSize(summary, Field("truncated", Bool(truncated)), Dumps);
    LastFieldSize(shell + [projection], Field("data_gaps", Strings(gaps)), Dumps);
    LastFieldCost(shell, projection, Dumps);
  }

  // ------------------------------------------- more packs never cost less

  lemma {:induction false} DistinctCost(a: seq<string>, b: seq<string>)
    requires Distinct(a) && forall x :: x in a ==> x in b
    ensures ItemsCost(TextItems(a), Dumps) <= ItemsCost(TextItems(b), Dumps)
    decreases |a|
  {
    if a != [] {
      var init, last := a[..|a| - 1], a[|a| - 1];
      assert a == init + [last];
      assert a[|a| - 1] in a;
      var i :| 0 <= i < |b| && b[i] == last;
      var rest := b[..i] + b[i + 1..];
      WithoutText(b, i);
      forall x | x in init ensures x in rest {
        assert x in a;
        var k :| 0 <= k < |b| && b[k] == x;
        assert rest[if k < i then k else k - 1] == x;
      }
      DistinctCost(init, rest);
      LastItemCost(init, last, Dumps);
    }
  }

  lemma WithoutText(b: seq<string>, i: nat)
    requires i < |b|
    ensures ItemsCost(TextItems(b), Dumps) == ItemsCost(TextItems(b[..i] + b[i + 1..]), Dumps) + TextSize(b[i], Dumps) + 2
  {
    assert TextItems(b) == TextItems(b[..i] + [b[i]]) + TextItems(b[i + 1..]);
    assert TextItems(b[..i] + b[i + 1..]) == TextItems(b[..i]) + TextItems(b[i + 1..]);
    ItemsCostAppend(TextItems(b[..i] + [b[i]]), TextItems(b[i + 1..]), Dumps);
    ItemsCostAppend(TextItems(b[..i]), TextItems(b[i + 1..]), Dumps);
    LastItemCost(b[..i], b[i], Dumps);
  }

  lemma MoreRefsCostMore(a: seq<string>, b: seq<string>)
    requires forall x :: x in a ==> x in b
    ensures RefsSize(a) <= RefsSize(b)
  {
    CleanRefsExact(a);
    CleanRefsExact(b);
    forall x | x in CleanRefs(a) ensures x in CleanRefs(b) {
      var i :| 0 <= i < |a| && Strip(a[i]) == x;
      assert a[i] in b;
      var j :| 0 <= j < |b| && b[j] == a[i];
    }
    DistinctCost(CleanRefs(a), CleanRefs(b));
    if CleanRefs(a) != [] {
      assert CleanRefs(a)[0] in CleanRefs(b);
    }
    StringsSize(CleanRefs(a));
    StringsSize(CleanRefs(b));
  }

  lemma StringsSize(texts: seq<string>)
    ensures Size(Strings(texts), Dumps) == if texts == [] then 2 else ItemsCost(TextItems(texts), Dumps)
  {
    assert texts != [] ==> TextItems(texts)[0] == Str(texts[0]);
  }

  lemma {:induction false} ConcatAppend(a: seq<seq<string>>, b: seq<seq<string>>)
    ensures Concat(a + b) == Concat(a) + Concat(b)
  {
    if a == [] {
      assert a + b == b;
    } else {
      assert (a + b)[1..] == a[1..] + b;
      ConcatAppend(a[1..], b);
    }
  }

  lemma MoreSources(packs: seq<Item>, more: seq<Item>)
    ensures AllSourceRefs(packs + more) == AllSourceRefs(packs) + AllSourceRefs(more)
    ensures AllContextPackRefs(packs + more) == AllContextPackRefs(packs) + AllContextPackRefs(more)
  {
    var all := packs + more;
    ConcatAppend(seq(|packs|, i requires 0 <= i < |packs| => packs[i].sourceRefs),
                 seq(|more|, i requires 0 <= i < |more| => more[i].sourceRefs));
    assert seq(|all|, i requires 0 <= i < |all| => all[i].sourceRefs)
      == seq(|packs|, i requires 0 <= i < |packs| => packs[i].sourceRefs)
       + seq(|more|, i requires 0 <= i < |more| => more[i].sourceRefs);
    ConcatAppend(seq(|packs|, i requires 0 <= i < |packs| => packs[i].contextPackRefs),
                 seq(|more|, i requires 0 <= i < |more| => more[i].contextPackRefs));
    assert seq(|all|, i requires 0 <= i < |all| => all[i].contextPackRefs)
      == seq(|packs|, i requires 0 <= i < |packs| => packs[i].contextPackRefs)
       + seq(|more|, i requires 0 <= i < |more| => more[i].contextPackRefs);
  }

  lemma MoreReceipts(packs: seq<Item>, more: seq<Item>)
    ensures forall x :: x in AllReceiptRefs(packs) ==> x in AllReceiptRefs(packs + more)
  {
    var all := packs + more;
    ConcatAppend(seq(|packs|, i requires 0 <= i < |packs| => packs[i].receiptRefs),
                 seq(|more|, i requires 0 <= i < |more| => more[i].receiptRefs));
    assert seq(|all|, i requires 0 <= i < |all| => all[i].receiptRefs)
      == seq(|packs|, i requires 0 <= i < |packs| => packs[i].receiptRefs)
       + seq(|more|, i requires 0 <= i < |more| => more[i].receiptRefs);
    ConcatAppend(seq(|packs|, i requires 0 <= i < |packs| => packs[i].receiptRef),
                 seq(|more|, i requires 0 <= i < |more| => more[i].receiptRef));
    assert seq(|all|, i requires 0 <= i < |all| => all[i].receiptRef)
      == seq(|packs|, i requires 0 <= i < |packs| => packs[i].receiptRef)
       + seq(|more|, i requires 0 <= i < |more| => more[i].receiptRef);
  }

  lemma MoreJson(packs: seq<Item>, more: seq<Item>)
    ensures Size(Arr(PackJsons(packs)), Dumps) <= Size(Arr(PackJsons(packs + more)), Dumps)
  {
    assert PackJsons(packs + more) == PackJsons(packs) + PackJsons(more);
    ItemsCostAppend(PackJsons(packs), PackJsons(more), Dumps);
    if packs == [] && more != [] {
      assert PackJsons(more)[0] == more[0].json;
    }
  }

  /** Adding packs never makes a bundle smaller. */
  lemma MorePacksCostMore(profile: Profile, count: nat, packs: seq<Item>, more: seq<Item>, gaps: seq<string>)
    ensures BundleSize(profile, count, packs, gaps, false) <= BundleSize(profile, count, packs + more, gaps, false)
  {
    BundleSizeExact(profile, count, packs, gaps, false);
    BundleSizeExact(profile, count, packs + more, gaps, false);
    MoreSources(packs, more);
    MoreReceipts(packs, more);
    MoreRefsCostMore(AllSourceRefs(packs), AllSourceRefs(packs + more));
    MoreRefsCostMore(AllContextPackRefs(packs), AllContextPackRefs(packs + more));
    MoreRefsCostMore(AllReceiptRefs(packs), AllReceiptRefs(packs + more));
    MoreJson(packs, more);
  }

  // -------------------------------------------------- the budget, exactly

  /** Each text with its separator. */
  function NoticeCost(texts: seq<string>): nat {
    ItemsCost(TextItems(texts), Dumps)
  }

  lemma GapsAdd(a: seq<string>, b: seq<string>)
    ensures Size(Strings(a + b), Dumps) <= Size(Strings(a), Dumps) + NoticeCost(b)
  {
    assert TextItems(a + b) == TextItems(a) + TextItems(b);
    ItemsCostAppend(TextItems(a), TextItems(b), Dumps);
    if a == [] && b != [] {
      assert TextItems(b)[0] == Str(b[0]);
    }
  }

  lemma {:induction false} PackingWithinBudget(profile: Profile, count: nat, gaps: seq<string>, ordered: seq<Item>)
    ensures var p := PackAll(profile, count, gaps, ordered);
      && p.accepted <= |p.gaps|
      && (p.included != [] ==>
            BundleSize(profile, count, p.included, p.gaps[..p.accepted], false) <= profile.totalMaxChars)
  {
    if ordered != [] {
      PackingWithinBudget(profile, count, gaps, ordered[..|ordered| - 1]);
      var q, taken := LastTurn(profile, count, gaps, ordered);
      var p := Turn(q, ordered[|ordered| - 1], taken, OmissionNotice(profile, ordered[|ordered| - 1]));
      assert p.gaps[..p.accepted] == if taken then p.gaps else q.gaps[..q.accepted];
    }
  }

  /** Once a pack is accepted, the finished bundle is at most the budget plus the omission notices
      recorded after the last accepted pack. */
  lemma BundleWithinBudgetPlusNotices(profile: Profile, count: nat, gaps: seq<string>, packs: seq<Item>)
    ensures var p := PackAll(profile, count, gaps, SortByPriority(packs));
      && p.accepted <= |p.gaps|
      && (p.included != [] ==>
            SizeOf(profile, count, BundleOf(p)) <= profile.totalMaxChars + NoticeCost(p.gaps[p.accepted..]))
  {
    var p := PackAll(profile, count, gaps, SortByPriority(packs));
    PackingWithinBudget(profile, count, gaps, SortByPriority(packs));
    FinishingAddsNotices(profile, count, p.included, p.gaps, p.accepted);
  }

  /** Cleaning the gaps and setting the flag cost nothing; the gaps past `n` cost themselves. */
  lemma FinishingAddsNotices(profile: Profile, count: nat, packs: seq<Item>, gaps: seq<string>, n: nat)
    requires n <= |gaps|
    ensures BundleSize(profile, count, packs, CleanRefs(gaps), gaps != [])
      <= BundleSize(profile, count, packs, gaps[..n], false) + NoticeCost(gaps[n..])
  {
    assert gaps == gaps[..n] + gaps[n..];
    GapsAdd(gaps[..n], gaps[n..]);
    CleaningNeverGrows(gaps, Dumps);
    BundleSizeExact(profile, count, packs, gaps[..n], false);
    BundleSizeExact(profile, count, packs, CleanRefs(gaps), gaps != []);
  }

  lemma {:induction false} WholeFits(profile: Profile, count: nat, gaps: seq<string>, ordered: seq<Item>)
    requires ordered != [] ==> BundleSize(profile, count, ordered, gaps, false) <= profile.totalMaxChars
    ensures PackAll(profile, count, gaps, ordered).included == ordered
    ensures PackAll(profile, count, gaps, ordered).gaps == gaps
  {
    if ordered != [] {
      var init, last := ordered[..|ordered| - 1], ordered[|ordered| - 1];
      assert ordered == init + [last];
      MorePacksCostMore(profile, count, init, [last], gaps);
      WholeFits(profile, count, gaps, init);
    }
  }

  /** As many packs are included as there are only when nothing was omitted. */
  predicate AllOrFewer(ordered: seq<Item>, gaps: seq<string>, p: Packing) {
    |p.included| <= |ordered| && (|p.included| == |ordered| ==> p.included == ordered && p.gaps == gaps)
  }

  lemma TurnAllOrFewer(ordered: seq<Item>, gaps: seq<string>, q: Packing, taken: bool, notice: string)
    requires ordered != [] && AllOrFewer(ordered[..|ordered| - 1], gaps, q)
    ensures AllOrFewer(ordered, gaps, Turn(q, ordered[|ordered| - 1], taken, notice))
  {
    assert ordered == ordered[..|ordered| - 1] + [ordered[|ordered| - 1]];
  }

  lemma {:induction false} NothingOmitted(profile: Profile, count: nat, gaps: seq<string>, ordered: seq<Item>)
    ensures AllOrFewer(ordered, gaps, PackAll(profile, count, gaps, ordered))
  {
    if ordered != [] {
      NothingOmitted(profile, count, gaps, ordered[..|ordered| - 1]);
      var q, taken := LastTurn(profile, count, gaps, ordered);
      TurnAllOrFewer(ordered, gaps, q, taken, OmissionNotice(profile, ordered[|ordered| - 1]));
    }
  }

  lemma WholeFitted(profile: Profile, count: nat, gaps: seq<string>, ordered: seq<Item>)
    requires ordered != [] && PackAll(profile, count, gaps, ordered).included == ordered
    ensures BundleSize(profile, count, ordered, gaps, false) <= profile.totalMaxChars
  {
    var init, last := ordered[..|ordered| - 1], ordered[|ordered| - 1];
    NothingOmitted(profile, count, gaps, init);
    var q, taken := LastTurn(profile, count, gaps, ordered);
    assert taken && q.included == init;
    assert ordered == init + [last];
  }

  /** Every pack is included if and only if the bundle of all of them fits the budget; and then the
      finished bundle fits it too. */
  lemma AllIncludedIffWholeFits(profile: Profile, count: nat, gaps: seq<string>, packs: seq<Item>)
    requires packs != []
    ensures var ordered := SortByPriority(packs); var p := PackAll(profile, count, gaps, ordered);
      && (p.included == ordered <==> BundleSize(profile, count, ordered, gaps, false) <= profile.totalMaxChars)
      && (p.included == ordered ==>
            p.gaps == gaps && SizeOf(profile, count, BundleOf(p)) <= profile.totalMaxChars)
  {
    var ordered := SortByPriority(packs);
    SortSameSize(packs, PriorityOf);
    if BundleSize(profile, count, ordered, gaps, false) <= profile.totalMaxChars {
      WholeFits(profile, count, gaps, ordered);
      FinishingCostsNothing(profile, count, ordered, gaps);
    }
    if PackAll(profile, count, gaps, ordered).included == ordered {
      WholeFitted(profile, count, gaps, ordered);
    }
  }

  lemma FinishingCostsNothing(profile: Profile, count: nat, packs: seq<Item>, gaps: seq<string>)
    ensures BundleSize(profile, count, packs, CleanRefs(gaps), gaps != []) <= BundleSize(profile, count, packs, gaps, false)
  {
    FinishingAddsNotices(profile, count, packs, gaps, |gaps|);
    assert gaps[..|gaps|] == gaps && gaps[|gaps|..] == [];
  }

  // ------------------------------------------- a budget that is overrun

  /** A pack that is nothing but a name: no projection, so priority 100. */
  function Filler(n: nat): Item {
    var name := seq(n, _ => 'a');
    Item(Obj([Field("name", Str(name))]), name, 100, [], [], [], [])
  }

  lemma FillerDescribed(n: nat)
    ensures Describes(Filler(n))
    ensures Size(Filler(n).json, Dumps) == n + 12
  {
    var x := Filler(n);
    NameAlone(x.name);
    PlainTextCost(x.name, Dumps);
    PlainTextCost("name", Dumps);
    OneFieldCost(x.json.fields[0], Dumps);
  }

  lemma NameAlone(name: string)
    ensures var f := [Field("name", Str(name))];
      && Lookup(f, "name") == Some(Str(name))
      && Lookup(f, "projection") == Lookup(f, "source_refs") == Lookup(f, "receipt_refs") == None
      && Lookup(f, "receipt_ref") == Lookup(f, "context_pack_refs") == None
  {
    var f := [Field("name", Str(name))];
    LookupFirst(f, 0);
    LookupMissing(f, "projection");
    LookupMissing(f, "source_refs");
    LookupMissing(f, "receipt_refs");
    LookupMissing(f, "receipt_ref");
    LookupMissing(f, "context_pack_refs");
  }

  predicate Bare(x: Item) {
    x.sourceRefs == x.receiptRefs == x.receiptRef == x.contextPackRefs == []
  }

  lemma {:induction false} ConcatOfEmpty(lists: seq<seq<string>>)
    requires forall i :: 0 <= i < |lists| ==> lists[i] == []
    ensures Concat(lists) == []
  {
    if lists != [] {
      ConcatOfEmpty(lists[1..]);
    }
  }

  lemma NoRefs(packs: seq<Item>)
    requires forall i :: 0 <= i < |packs| ==> Bare(packs[i])
    ensures AllSourceRefs(packs) == AllReceiptRefs(packs) == AllContextPackRefs(packs) == []
  {
    ConcatOfEmpty(seq(|packs|, i requires 0 <= i < |packs| => packs[i].sourceRefs));
    ConcatOfEmpty(seq(|packs|, i requires 0 <= i < |packs| => packs[i].receiptRefs));
    ConcatOfEmpty(seq(|packs|, i requires 0 <= i < |packs| => packs[i].receiptRef));
    ConcatOfEmpty(seq(|packs|, i requires 0 <= i < |packs| => packs[i].contextPackRefs));
  }

  /** Packs without references cost their JSON and nothing else. */
  lemma BareSize(profile: Profile, count: nat, packs: seq<Item>)
    requires forall i :: 0 <= i < |packs| ==> Bare(packs[i])
    ensures BundleSize(profile, count, packs, [], false) ==
      BaseSize(profile, count) + Size(Arr(PackJsons(packs)), Dumps) + 13
  {
    var base, jsons := BaseSize(profile, count), Size(Arr(PackJsons(packs)), Dumps);
    var size := BundleSize(profile, count, packs, [], false);
    assert size == base + 3 * RefsSize([]) + jsons + Size(Bool(false), Dumps) + Size(Strings([]), Dumps) by {
      NoRefs(packs);
      BundleSizeExact(profile, count, packs, [], false);
    }
    EmptySizes();
  }

  lemma EmptySizes()
    ensures RefsSize([]) == 2 && Size(Strings([]), Dumps) == 2 && Size(Bool(false), Dumps) == 5
  {
    NoRefsSize();
    OneTextSize("", Dumps);
  }

  lemma OneJsonSize(a: Item)
    ensures Size(Arr(PackJsons([a])), Dumps) == Size(a.json, Dumps) + 2
  {
    assert PackJsons([a]) == [a.json];
    assert ItemsCost([a.json], Dumps) == Size(a.json, Dumps) + 2;
  }

  lemma TwoJsonSize(a: Item, b: Item)
    ensures Size(Arr(PackJsons([a, b])), Dumps) == Size(a.json, Dumps) + Size(b.json, Dumps) + 4
  {
    OneJsonSize(a);
    OneJsonSize(b);
    assert PackJsons([a, b]) == PackJsons([a]) + PackJsons([b]);
    ItemsCostAppend(PackJsons([a]), PackJsons([b]), Dumps);
  }

  lemma SortOfTwo(a: Item, b: Item)
    requires a.priority <= b.priority
    ensures SortByPriority([a, b]) == [a, b]
  {
    var one, two := [a], [a, b];
    assert two[..|two| - 1] == one && one[..|one| - 1] == [];
    assert SortBy(one[..|one| - 1], PriorityOf) == [];
    assert SortBy(one, PriorityOf) == InsertBy(a, [], PriorityOf) == one;
    assert InsertBy(b, one, PriorityOf) == [a] + InsertBy(b, [], PriorityOf);
  }

  lemma SecondPackOmitted(profile: Profile, count: nat, a: Item, b: Item)
    requires a.priority <= b.priority
    requires BundleSize(profile, count, [a], [], false) <= profile.totalMaxChars
    requires BundleSize(profile, count, [a, b], [], false) > profile.totalMaxChars
    ensures PackAll(profile, count, [], SortByPriority([a, b]))
      == Packing([a], [OmissionNotice(profile, b)], 0, [true, false])
  {
    var none: seq<Item>, one := [], [a];
    var empty: Packing := PackAll(profile, count, [], none);
    SortOfTwo(a, b);
    assert none + [a] == one && one[..0] == none && one + [b] == [a, b] && [a, b][..1] == one;
    assert PackAll(profile, count, [], one) == PackOne(profile, count, empty, a);
    assert PackOne(profile, count, empty, a) == Packing(one, [], 0, [true]);
    assert PackAll(profile, count, [], [a, b]) == PackOne(profile, count, Packing(one, [], 0, [true]), b);
  }

  /** When the first pack fills the budget exactly and the second does not fit, the finished bundle
      exceeds the budget by its one notice, less one character of the flag. */
  lemma NoticeOverrunsBudget(profile: Profile, count: nat, a: Item, b: Item)
    requires a.priority <= b.priority
    ensures BundleSize(profile, count, [a], [], false) == profile.totalMaxChars < BundleSize(profile, count, [a, b], [], false) ==>
      var p := PackAll(profile, count, [], SortByPriority([a, b]));
      && p.included == [a]
      && SizeOf(profile, count, BundleOf(p)) == profile.totalMaxChars + TextSize(OmissionNotice(profile, b), Dumps) - 1
      && SizeOf(profile, count, BundleOf(p)) > profile.totalMaxChars
  {
    if BundleSize(profile, count, [a], [], false) == profile.totalMaxChars < BundleSize(profile, count, [a, b], [], false) {
      SecondPackOmitted(profile, count, a, b);
      OneGapFinished(profile, count, [a], OmissionNotice(profile, b)) by {
        NoticeIsTrimmed(profile, b);
      }
    }
  }

  lemma OneGapFinished(profile: Profile, count: nat, packs: seq<Item>, text: string)
    requires Strip(text) == text != ""
    ensures SizeOf(profile, count, BundleOf(Packing(packs, [text], 0, [true, false])))
      == BundleSize(profile, count, packs, [], false) + TextSize(text, Dumps) - 1
  {
    CleanSingle(text);
    OneGapSize(profile, count, packs, text);
  }

  lemma OneGapSize(profile: Profile, count: nat, packs: seq<Item>, text: string)
    ensures BundleSize(profile, count, packs, [text], true)
      == BundleSize(profile, count, packs, [], false) + TextSize(text, Dumps) - 1
  {
    BundleSizeExact(profile, count, packs, [], false);
    BundleSizeExact(profile, count, packs, [text], true);
    OneTextSize(text, Dumps);
  }

  predicate AllDescribed(packs: seq<Item>) {
    forall x :: x in packs ==> Describes(x)
  }

  /** The bundle holds a pack and exceeds the budget. */
  predicate Exceeds(profile: Profile, count: nat, packs: seq<Item>) {
    var p := PackAll(profile, count, [], SortByPriority(packs));
    p.included != [] && SizeOf(profile, count, BundleOf(p)) > profile.totalMaxChars
  }

  lemma FillerBundle(profile: Profile, count: nat, n: nat)
    ensures BundleSize(profile, count, [Filler(n)], [], false) == BaseSize(profile, count) + n + 27
    ensures BundleSize(profile, count, [Filler(n), Filler(0)], [], false) == BaseSize(profile, count) + n + 41
  {
    var a, b := Filler(n), Filler(0);
    FillerDescribed(n);
    FillerDescribed(0);
    BareSize(profile, count, [a]);
    BareSize(profile, count, [a, b]);
    OneJsonSize(a);
    TwoJsonSize(a, b);
  }

  lemma FillersExceed(profile: Profile, count: nat)
    requires BundleSize(profile, count, [Filler(0)], [], false) <= profile.totalMaxChars
    ensures exists packs :: AllDescribed(packs) && Exceeds(profile, count, packs)
  {
    var n := profile.totalMaxChars - BundleSize(profile, count, [Filler(0)], [], false);
    FillerBundle(profile, count, 0);
    FillerBundle(profile, count, n);
    FillersDescribed(n);
    PairExceeds(profile, count, Filler(n), Filler(0));
  }

  lemma FillersDescribed(n: nat)
    ensures AllDescribed([Filler(n), Filler(0)])
  {
    FillerDescribed(n);
    FillerDescribed(0);
  }

  lemma PairExceeds(profile: Profile, count: nat, a: Item, b: Item)
    requires a.priority <= b.priority
    requires BundleSize(profile, count, [a], [], false) == profile.totalMaxChars
    requires BundleSize(profile, count, [a, b], [], false) > profile.totalMaxChars
    ensures Exceeds(profile, count, [a, b])
  {
    NoticeOverrunsBudget(profile, count, a, b);
  }

  lemma {:induction false} LookupIsField(fields: seq<Field>, key: string) returns (i: nat)
    requires Lookup(fields, key).Some?
    ensures i < |fields| && fields[i] == Field(key, Lookup(fields, key).value)
  {
    if fields[0].key == key {
      i := 0;
    } else {
      i := LookupIsField(fields[1..], key);
      i := i + 1;
    }
  }

  /** A named pack is at least as large as a filler without text. */
  lemma DescribedSize(x: Item)
    requires Describes(x)
    ensures Size(x.json, Dumps) >= 12
  {
    var i := LookupIsField(x.json.fields, "name");
    FieldCounts(x.json.fields, i, Dumps);
    PlainTextCost("name", Dumps);
  }

  lemma ListSizeAtLeast(texts: seq<string>)
    ensures Size(Strings(texts), Dumps) >= 2
  {
    StringsSize(texts);
    if texts != [] {
      TextCounts(texts, texts[0], Dumps);
    }
  }

  lemma BundleAtLeast(profile: Profile, count: nat, packs: seq<Item>, gaps: seq<string>)
    requires packs != [] && Size(packs[0].json, Dumps) >= 12
    ensures BundleSize(profile, count, packs, gaps, false) >= BaseSize(profile, count) + 27
  {
    BundleSizeExact(profile, count, packs, gaps, false);
    FirstJsonCounts(packs);
    ListSizeAtLeast(gaps);
    ListSizeAtLeast(CleanRefs(AllSourceRefs(packs)));
    ListSizeAtLeast(CleanRefs(AllReceiptRefs(packs)));
    ListSizeAtLeast(CleanRefs(AllContextPackRefs(packs)));
  }

  /** A bundle that holds a named pack is at least as large as one that holds the smallest filler. */
  lemma SmallestBundle(profile: Profile, count: nat, packs: seq<Item>, gaps: seq<string>)
    requires packs != [] && Describes(packs[0])
    ensures BundleSize(profile, count, packs, gaps, false) >= BundleSize(profile, count, [Filler(0)], [], false)
  {
    FillerBundle(profile, count, 0);
    DescribedSize(packs[0]);
    BundleAtLeast(profile, count, packs, gaps);
  }

  lemma FirstJsonCounts(packs: seq<Item>)
    requires packs != []
    ensures Size(Arr(PackJsons(packs)), Dumps) >= Size(packs[0].json, Dumps) + 2
  {
    assert PackJsons(packs)[0] == packs[0].json;
    ItemCounts(PackJsons(packs), 0, Dumps);
  }

  lemma {:induction false} ChosenAreMembers<T>(s: seq<T>, flags: seq<bool>)
    requires |s| == |flags|
    ensures forall x :: x in Chosen(s, flags) ==> x in s
  {
    if s != [] {
      ChosenAreMembers(s[..|s| - 1], flags[..|s| - 1]);
    }
  }

  /** The first pack included is one of those given. */
  lemma FirstIncluded(profile: Profile, count: nat, packs: seq<Item>)
    requires PackAll(profile, count, [], SortByPriority(packs)).included != []
    ensures PackAll(profile, count, [], SortByPriority(packs)).included[0] in packs
  {
    var ordered := SortByPriority(packs);
    var p := PackAll(profile, count, [], ordered);
    PackingSelects(profile, count, [], ordered);
    ChosenAreMembers(ordered, p.taken);
    SortSameSize(packs, PriorityOf);
    assert p.included[0] in p.included;
  }

  /** The plain bound fails for some packs the code can be given exactly when the profile has room for
      one small pack. */
  lemma PlainBudgetBoundFailsIff(profile: Profile, count: nat)
    ensures (exists packs :: AllDescribed(packs) && Exceeds(profile, count, packs)) <==>
      BundleSize(profile, count, [Filler(0)], [], false) <= profile.totalMaxChars
  {
    if packs :| AllDescribed(packs) && Exceeds(profile, count, packs) {
      var ordered := SortByPriority(packs);
      var p := PackAll(profile, count, [], ordered);
      FirstIncluded(profile, count, packs);
      PackingWithinBudget(profile, count, [], ordered);
      SmallestBundle(profile, count, p.included, p.gaps[..p.accepted]);
    }
    if BundleSize(profile, count, [Filler(0)], [], false) <= profile.totalMaxChars {
      FillersExceed(profile, count);
    }
  }
}
