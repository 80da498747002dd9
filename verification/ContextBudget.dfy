/** When fitting a built pack to its budget succeeds (src/finharness/agent_context.py). */
module ContextBudget {
  import opened Common
  import opened Json
  import opened ContextBounding
  import opened Refs
  import opened ContextPack

  // ------------------------------------------------------ sizes from below

  /** A field counts with its key and its value. */
  lemma {:induction false} FieldCounts(fields: seq<Field>, i: nat, style: Style)
    requires i < |fields|
    ensures FieldsCost(fields, style) >= FieldSize(fields[i], style) + SeparatorSize(style)
    ensures Size(Obj(fields), style) >= Size(fields[i].value, style) && Size(Obj(fields), style) >= |fields[i].key|
  {
    if i > 0 {
      FieldCounts(fields[1..], i - 1, style);
    }
    TextCostAtLeastLength(fields[i].key, style);
  }

  lemma {:induction false} ItemCounts(items: seq<Json>, i: nat, style: Style)
    requires i < |items|
    ensures ItemsCost(items, style) >= Size(items[i], style) + SeparatorSize(style)
  {
    if i > 0 {
      ItemCounts(items[1..], i - 1, style);
    }
  }

  lemma TextCounts(texts: seq<string>, x: string, style: Style)
    requires x in texts
    ensures Size(Strings(texts), style) >= |x| + 4
  {
    var i :| 0 <= i < |texts| && texts[i] == x;
    assert TextItems(texts)[i] == Str(x);
    ItemCounts(TextItems(texts), i, style);
    TextCostAtLeastLength(x, style);
  }

  lemma {:induction false} LookupCounts(fields: seq<Field>, key: string, style: Style)
    requires Lookup(fields, key).Some?
    ensures Size(Obj(fields), style) >= Size(Lookup(fields, key).value, style)
  {
    if fields[0].key == key {
      FieldCounts(fields, 0, style);
    } else {
      LookupCounts(fields[1..], key, style);
    }
  }

  /** Text too long for a budget, or for a limit on keys. */
  function Long(n: nat): (s: string)
    ensures |s| == n + 1 && s[0] == '!'
  {
    seq(n + 1, _ => '!')
  }

  // --------------------------------------------------------- built packs

  /** What the marker of a built pack holds: the mark alone, or the bounded admission fields too. */
  function MarkerOf(p: Pack, spec: PackSpec): seq<Field> {
    CompactMarker(p.name, BoundedSummary(BoundedSummary(p.summary, Limits(spec.maxItems, 500, true)),
                                         Limits(Max(1, spec.maxItems / 2), 240, true)))
  }

  /** The pack the last rung leaves. */
  function LastRung(name: string, available: bool, marker: seq<Field>, spec: PackSpec): Pack {
    Pack(name, available, marker, [], [ExceededNotice(spec, LAST_NOTICE)], LAST_CLAIMS)
  }

  lemma LongGapDoesNotFit(p: Pack, spec: PackSpec, x: string)
    requires x in p.dataGaps && |x| > spec.maxChars
    ensures !Fits(p, spec)
  {
    TextCounts(p.dataGaps, x, Compact);
    FieldCounts(PackJson(p).fields, 4, Compact);
  }

  /** A gap that fills the budget by itself takes the ladder to its last rung. */
  lemma LongGapNeedsLastRung(p: Pack, spec: PackSpec, x: string)
    requires x in p.dataGaps && |x| > spec.maxChars
    ensures Fit(p, spec) == BareMinimum(Marked(Compacted(p, spec), spec), spec)
  {
    var compacted := Compacted(p, spec);
    DedupeMembers(p.dataGaps + [ExceededNotice(spec, "summary was compacted")]);
    DedupeMembers(compacted.dataGaps + [ExceededNotice(spec, "summary was replaced by compact marker")]);
    LongGapDoesNotFit(p, spec, x);
    LongGapDoesNotFit(compacted, spec, x);
    LongGapDoesNotFit(Marked(compacted, spec), spec, x);
  }

  lemma LastRungReached(p: Pack, spec: PackSpec)
    ensures BareMinimum(Marked(Compacted(Prepared(p, spec), spec), spec), spec)
      == LastRung(p.name, p.available, MarkerOf(p, spec), spec)
  {
  }

  function FloorOf(p: Pack, spec: PackSpec): nat {
    FloorSize(p.name, p.available, MarkerOf(p, spec), spec)
  }

  lemma FloorSuffices(p: Pack, spec: PackSpec)
    requires FloorOf(p, spec) <= spec.maxChars
    ensures Fits(Build(p, spec), spec)
  {
    LastRungReached(p, spec);
    FloorExact(p.name, p.available, MarkerOf(p, spec), spec);
  }

  /** The same pack with nothing but a long gap. */
  function WithLongGap(p: Pack, spec: PackSpec): Pack {
    p.(dataGaps := [Long(spec.maxChars)])
  }

  lemma FloorNeeded(p: Pack, spec: PackSpec)
    ensures Fits(Build(WithLongGap(p, spec), spec), spec) ==> FloorOf(p, spec) <= spec.maxChars
  {
    var q := WithLongGap(p, spec);
    LongGapBuilt(q, spec);
    LastRungReached(q, spec);
    FloorExact(p.name, p.available, MarkerOf(p, spec), spec);
  }

  /** Packs that differ in references, gaps and claims, and in what the summary has besides the marker. */
  predicate SameMarker(p: Pack, q: Pack, spec: PackSpec) {
    p.name == q.name && p.available == q.available && MarkerOf(p, spec) == MarkerOf(q, spec)
  }

  /** Whatever a pack's references, gaps and claims are, and whatever its summary has besides the marker,
      it ends within its budget: exactly when the budget is at least the size of its last rung. */
  lemma BuiltWithinBudgetIff(p: Pack, spec: PackSpec)
    ensures (forall q :: SameMarker(p, q, spec) ==> Fits(Build(q, spec), spec)) <==> FloorOf(p, spec) <= spec.maxChars
  {
    if FloorOf(p, spec) <= spec.maxChars {
      forall q | SameMarker(p, q, spec) ensures Fits(Build(q, spec), spec) {
        FloorSuffices(q, spec);
      }
    } else {
      FloorNeeded(p, spec);
      assert SameMarker(p, WithLongGap(p, spec), spec);
    }
  }

  lemma LongGapBuilt(q: Pack, spec: PackSpec)
    requires q.dataGaps == [Long(spec.maxChars)]
    ensures Build(q, spec) == BareMinimum(Marked(Compacted(Prepared(q, spec), spec), spec), spec)
  {
    var x := Long(spec.maxChars);
    assert q.dataGaps[0] == x;
    GapPrepared(q, spec, x);
    LongGapNeedsLastRung(Prepared(q, spec), spec, x);
  }

  lemma GapPrepared(p: Pack, spec: PackSpec, x: string)
    requires x in p.dataGaps && x != ""
    ensures x in Prepared(p, spec).dataGaps
  {
    DedupeMembers(p.dataGaps);
    assert Dedupe(p.dataGaps) <= Prepared(p, spec).dataGaps;
  }

  /** Size of the last rung: the name, the marker, the budget's own digits, and fixed text. */
  function FloorSize(name: string, available: bool, marker: seq<Field>, spec: PackSpec): nat {
    TextCost(name, Compact) + Size(Obj(marker), Compact) + |Decimal(spec.maxChars)| + (if available then 4 else 5) + 252
  }

  lemma NoticeCost(spec: PackSpec)
    ensures TextCost(ExceededNotice(spec, LAST_NOTICE), Compact) == |Decimal(spec.maxChars)| + 86
  {
    var digits := Decimal(spec.maxChars);
    var head, tail := "context pack exceeded ", " chars; ";
    TextCostAppend(head, digits, Compact);
    TextCostAppend(head + digits, tail, Compact);
    TextCostAppend(head + digits + tail, LAST_NOTICE, Compact);
    PlainTextCost(digits, Compact);
    PlainTextCost(head, Compact);
    PlainTextCost(tail, Compact);
    LastNoticeCost();
  }

  lemma LastNoticeCost()
    ensures TextCost(LAST_NOTICE, Compact) == 56
  {
    var a, b, c := "summary and source ", "refs were replaced ", "by compact markers";
    PlainTextCost(a, Compact);
    PlainTextCost(b, Compact);
    PlainTextCost(c, Compact);
    TextCostAppend(a, b, Compact);
    TextCostAppend(a + b, c, Compact);
  }

  /** Sizes of the fixed parts of a pack's JSON. */
  lemma PackKeyCosts()
    ensures TextCost("name", Compact) == 4 && TextCost("available", Compact) == 9
    ensures TextCost("summary", Compact) == 7 && TextCost("source_refs", Compact) == 11
    ensures TextCost("data_gaps", Compact) == 9 && TextCost("non_claims", Compact) == 10
    ensures TextCost("execution_allowed", Compact) == 17 && TextCost("compacted", Compact) == 9
  {
    PlainTextCost("name", Compact);
    PlainTextCost("available", Compact);
    PlainTextCost("summary", Compact);
    PlainTextCost("source_refs", Compact);
    PlainTextCost("data_gaps", Compact);
    PlainTextCost("non_claims", Compact);
    PlainTextCost("execution_allowed", Compact);
    PlainTextCost("compacted", Compact);
  }

  lemma TwoTextsSize(a: string, b: string, style: Style)
    ensures Size(Strings([a, b]), style) == TextSize(a, style) + TextSize(b, style) + SeparatorSize(style) + 2
  {
    assert [a, b] == [a] + [b];
    LastItemCost([a], b, style);
    OneTextSize(a, style);
    assert TextItems([a]) != [] && TextItems([a, b]) != [];
  }

  lemma LastClaimsSize()
    ensures Size(Strings(LAST_CLAIMS), Compact) == 57
  {
    var a, b, c, d := "Not execution ", "authorization.", "Not investment ", "advice.";
    PlainTextCost(a, Compact);
    PlainTextCost(b, Compact);
    PlainTextCost(c, Compact);
    PlainTextCost(d, Compact);
    TextCostAppend(a, b, Compact);
    TextCostAppend(c, d, Compact);
    TwoTextsSize(a + b, c + d, Compact);
  }

  lemma OneTextSize(a: string, style: Style)
    ensures Size(Strings([a]), style) == TextSize(a, style) + 2
    ensures Size(Strings([]), style) == 2
  {
    assert TextItems([a]) == [Str(a)];
    assert ItemsCost([Str(a)], style) == TextSize(a, style) + SeparatorSize(style);
  }

  lemma OneFieldCost(f: Field, style: Style)
    ensures FieldsCost([f], style) == FieldSize(f, style) + SeparatorSize(style)
  {
  }

  lemma LastFieldCost(init: seq<Field>, last: Field, style: Style)
    ensures FieldsCost(init + [last], style) == FieldsCost(init, style) + FieldSize(last, style) + SeparatorSize(style)
  {
    FieldsCostAppend(init, [last], style);
    OneFieldCost(last, style);
  }

  lemma ThreeFieldsCost(a: Field, b: Field, c: Field, style: Style)
    ensures FieldsCost([a, b, c], style) ==
      FieldSize(a, style) + FieldSize(b, style) + FieldSize(c, style) + 3 * SeparatorSize(style)
  {
    OneFieldCost(a, style);
    LastFieldCost([a], b, style);
    LastFieldCost([a] + [b], c, style);
    assert [a] + [b] + [c] == [a, b, c];
  }

  lemma SevenFieldsSize(f: seq<Field>)
    requires |f| == 7
    ensures Size(Obj(f), Compact) ==
      FieldSize(f[0], Compact) + FieldSize(f[1], Compact) + FieldSize(f[2], Compact) + FieldSize(f[3], Compact)
      + FieldSize(f[4], Compact) + FieldSize(f[5], Compact) + FieldSize(f[6], Compact) + 8
  {
    var a, b := [f[0], f[1], f[2]], [f[3], f[4], f[5]];
    ThreeFieldsCost(f[0], f[1], f[2], Compact);
    ThreeFieldsCost(f[3], f[4], f[5], Compact);
    assert f == a + b + [f[6]];
    FieldsCostAppend(a, b, Compact);
    LastFieldCost(a + b, f[6], Compact);
  }

  lemma PackFieldsSize(f: seq<Field>)
    requires |f| == 7
    requires TextCost(f[0].key, Compact) == 4 && TextCost(f[1].key, Compact) == 9 && TextCost(f[2].key, Compact) == 7
    requires TextCost(f[3].key, Compact) == 11 && TextCost(f[4].key, Compact) == 9 && TextCost(f[5].key, Compact) == 10
    requires TextCost(f[6].key, Compact) == 17
    ensures Size(Obj(f), Compact) == 96
      + Size(f[0].value, Compact) + Size(f[1].value, Compact) + Size(f[2].value, Compact) + Size(f[3].value, Compact)
      + Size(f[4].value, Compact) + Size(f[5].value, Compact) + Size(f[6].value, Compact)
  {
    SevenFieldsSize(f);
  }

  lemma PackSize(p: Pack)
    ensures Size(PackJson(p), Compact) ==
      TextCost(p.name, Compact) + Size(Bool(p.available), Compact) + Size(Obj(p.summary), Compact)
      + Size(Strings(p.sourceRefs), Compact) + Size(Strings(p.dataGaps), Compact) + Size(Strings(p.nonClaims), Compact)
      + 103
  {
    PackKeysHeld(p);
    PackFieldsSize(PackJson(p).fields);
  }

  lemma PackKeysHeld(p: Pack)
    ensures var f := PackJson(p).fields;
      && TextCost(f[0].key, Compact) == 4 && TextCost(f[1].key, Compact) == 9 && TextCost(f[2].key, Compact) == 7
      && TextCost(f[3].key, Compact) == 11 && TextCost(f[4].key, Compact) == 9 && TextCost(f[5].key, Compact) == 10
      && TextCost(f[6].key, Compact) == 17
  {
    PackKeyCosts();
  }

  const MARK: seq<Field> := [Field("compacted", Bool(true))]

  lemma MarkSize()
    ensures Size(Obj(MARK), Compact) == 18
  {
    PackKeyCosts();
    assert FieldsCost(MARK, Compact) == FieldSize(MARK[0], Compact) + 1;
  }

  lemma FloorExact(name: string, available: bool, marker: seq<Field>, spec: PackSpec)
    ensures Size(PackJson(LastRung(name, available, marker, spec)), Compact) == FloorSize(name, available, marker, spec)
  {
    LastClaimsSize();
    NoticeCost(spec);
    OneTextSize(ExceededNotice(spec, LAST_NOTICE), Compact);
    PackSize(LastRung(name, available, marker, spec));
  }

  lemma OrdinaryFloor(p: Pack, spec: PackSpec)
    requires p.name != CAPITAL_SUMMARY
    ensures FloorOf(p, spec) == OrdinaryFloorSize(p.name, p.available, spec)
  {
    MarkSize();
    assert MarkerOf(p, spec) == MARK;
  }

  function OrdinaryFloorSize(name: string, available: bool, spec: PackSpec): nat {
    TextCost(name, Compact) + |Decimal(spec.maxChars)| + (if available then 4 else 5) + 270
  }

  /** Every pack of a name other than the capital summary ends within its budget exactly when the budget
      holds the name, its own digits and the fixed text of the last rung. */
  lemma OrdinaryPackWithinBudgetIff(name: string, available: bool, spec: PackSpec)
    requires name != CAPITAL_SUMMARY
    ensures (forall p: Pack :: p.name == name && p.available == available ==> Fits(Build(p, spec), spec))
      <==> OrdinaryFloorSize(name, available, spec) <= spec.maxChars
  {
    if OrdinaryFloorSize(name, available, spec) <= spec.maxChars {
      forall p: Pack | p.name == name && p.available == available ensures Fits(Build(p, spec), spec) {
        OrdinaryFloor(p, spec);
        FloorSuffices(p, spec);
      }
    } else {
      var p := Pack(name, available, [], [], [], []);
      OrdinaryFloor(p, spec);
      FloorNeeded(p, spec);
      assert WithLongGap(p, spec).name == name && WithLongGap(p, spec).available == available;
    }
  }

  /** The specs of the packs other than the capital summary. */
  const ORDINARY_SPECS := [
    PackSpec("current_ips", 10, 5000), PackSpec("ips_check", 20, 6000), PackSpec("open_proposals", 10, 9000),
    PackSpec("proposal_timeline", 20, 9000), PackSpec("planning_policy", 30, 8000)
  ]

  lemma {:induction false} TextCostAtMost(s: string)
    ensures TextCost(s, Compact) <= 6 * |s|
  {
    if s != [] {
      TextCostAtMost(s[..|s| - 1]);
    }
  }

  /** So each of them is always within its budget, whatever it is given. */
  lemma OrdinaryPacksFit(p: Pack, spec: PackSpec)
    requires spec in ORDINARY_SPECS && p.name == spec.name
    ensures Fits(Build(p, spec), spec)
  {
    assert |spec.name| <= 17 && spec.name != CAPITAL_SUMMARY && 5000 <= spec.maxChars < 10_000;
    TextCostAtMost(spec.name);
    OrdinaryFloor(p, spec);
    DecimalLength(spec.maxChars, 3) by {
      assert Power10(4) == 10_000;
    }
    FloorSuffices(p, spec);
  }

  /** And comes back as it was prepared exactly when that fits. */
  lemma OrdinaryUntouchedIff(p: Pack, spec: PackSpec)
    requires spec in ORDINARY_SPECS && p.name == spec.name
    ensures Build(p, spec) == Prepared(p, spec) <==> Fits(Prepared(p, spec), spec)
  {
    OrdinaryPacksFit(p, spec);
    FitUntouchedIff(Prepared(p, spec), spec);
  }

  // ------------------------------------------------- the capital pack

  lemma BigSummaryDoesNotFit(p: Pack, spec: PackSpec, key: string, inner: string)
    requires Lookup(p.summary, key) == Some(Obj([Field(inner, Null)])) && |inner| > spec.maxChars
    ensures !Fits(p, spec)
  {
    FieldCounts([Field(inner, Null)], 0, Compact);
    LookupCounts(p.summary, key, Compact);
    FieldCounts(PackJson(p).fields, 2, Compact);
  }

  lemma InnerKeyBounded(summary: seq<Field>, key: string, inner: string, l: Limits)
    requires Lookup(summary, key) == Some(Obj([Field(inner, Null)])) && l.maxItems >= 1
    ensures Lookup(BoundedSummary(summary, l), key) == Some(Obj([Field(inner, Null)]))
  {
    SummaryKeepsKeys(summary, l);
    BoundedKeepsFirstFields([Field(inner, Null)], l.maxItems, l);
    assert BoundedFields([Field(inner, Null)], l.maxItems, l) == [Field(inner, Null)];
  }

  /** The capital pack has no such guarantee: keys inside an admission value are never shortened, so a
      capital pack with one longer than the budget ends over it on every rung. */
  lemma CapitalPackCanExceed(p: Pack, spec: PackSpec, key: string, inner: string)
    requires p.name == CAPITAL_SUMMARY && key in ADMISSION_KEYS && spec.maxItems >= 1
    requires Lookup(p.summary, key) == Some(Obj([Field(inner, Null)])) && |inner| > spec.maxChars
    ensures !Fits(Build(p, spec), spec)
  {
    var prepared := Prepared(p, spec);
    var compacted := Compacted(prepared, spec);
    InnerKeyBounded(p.summary, key, inner, Limits(spec.maxItems, 500, true));
    InnerKeyBounded(prepared.summary, key, inner, Limits(Max(1, spec.maxItems / 2), 240, true));
    MarkerLookup(key, compacted.summary);
    FitIsARung(prepared, spec);
    BigSummaryDoesNotFit(Build(p, spec), spec, key, inner);
  }
}
