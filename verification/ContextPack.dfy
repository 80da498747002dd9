/** References and notices cleaned of blanks and repeats (src/finharness/agent_context.py,
    src/finharness/agent_context_projection.py). */
module Refs {
  import opened Common
  import opened Json

  /** Non-empty texts, each at its first place. */
  function Dedupe(values: seq<string>): seq<string> {
    if values == [] then []
    else
      var earlier := Dedupe(values[..|values| - 1]);
      var last := values[|values| - 1];
      if last == "" || last in earlier then earlier else earlier + [last]
  }

  function Stripped(values: seq<string>): seq<string> {
    seq(|values|, i requires 0 <= i < |values| => Strip(values[i]))
  }

  /** _refs of agent_context_projection.py */
  function CleanRefs(values: seq<string>): seq<string> {
    Dedupe(Stripped(values))
  }

  /** The loop with a seen set, as _dedupe runs it. */
  method DedupeLoop(values: seq<string>) returns (out: seq<string>)
    ensures out == Dedupe(values)
  {
    var seen: set<string> := {};
    out := [];
    for n := 0 to |values|
      invariant out == Dedupe(values[..n])
      invariant seen == set x | x in out
    {
      DedupeStep(values, n);
      if values[n] != "" && values[n] !in seen {
        seen := seen + {values[n]};
        out := out + [values[n]];
      }
    }
    assert values[..|values|] == values;
  }

  /** The same loop over stripped text, as _refs of agent_context_projection.py runs it. */
  method RefsLoop(values: seq<string>) returns (out: seq<string>)
    ensures out == CleanRefs(values)
  {
    out := DedupeLoop(Stripped(values));
  }

  lemma DedupeStep(values: seq<string>, n: nat)
    requires n < |values|
    ensures var earlier := Dedupe(values[..n]);
      Dedupe(values[..n + 1]) == if values[n] == "" || values[n] in earlier then earlier else earlier + [values[n]]
  {
    assert values[..n + 1][..n] == values[..n];
  }

  lemma {:induction false} DedupeMembers(values: seq<string>)
    ensures forall x :: x in Dedupe(values) <==> x in values && x != ""
  {
    if values != [] {
      var init, last := values[..|values| - 1], values[|values| - 1];
      DedupeMembers(init);
      assert values == init + [last];
    }
  }

  lemma {:induction false} DedupeInOrder(values: seq<string>)
    ensures InFirstOrder(Dedupe(values), values)
  {
    if values != [] {
      var init, last := values[..|values| - 1], values[|values| - 1];
      DedupeInOrder(init);
      DedupeMembers(init);
      StillInOrder(Dedupe(init), init, last);
      assert values == init + [last];
    }
  }

  /** Exactly the non-empty texts, each once, in the order of their first occurrence. */
  lemma DedupeExact(values: seq<string>)
    ensures Distinct(Dedupe(values))
    ensures forall x :: x in Dedupe(values) <==> x in values && x != ""
    ensures InFirstOrder(Dedupe(values), values)
  {
    DedupeMembers(values);
    DedupeInOrder(values);
  }

  lemma CleanRefsExact(values: seq<string>)
    ensures Distinct(CleanRefs(values))
    ensures forall x :: x in CleanRefs(values) <==> x != "" && exists i :: 0 <= i < |values| && Strip(values[i]) == x
    ensures InFirstOrder(CleanRefs(values), Stripped(values))
  {
    DedupeExact(Stripped(values));
    forall i | 0 <= i < |values| ensures Strip(values[i]) in Stripped(values) {
      assert Stripped(values)[i] == Strip(values[i]);
    }
  }

  lemma CleanSingle(text: string)
    requires Strip(text) == text != ""
    ensures CleanRefs([text]) == [text]
  {
    var one := [text];
    assert Stripped(one) == one;
    assert one[..0] == [] && Dedupe(one[..0]) == [];
    assert one[|one| - 1] == text && [] + [text] == one;
  }

  function TextItems(texts: seq<string>): seq<Json> {
    Strings(texts).items
  }

  /** Dropping text at either end costs nothing more. */
  lemma SliceCost(s: string, from: nat, to: nat, style: Style)
    requires from <= to <= |s|
    ensures TextCost(s[from..to], style) <= TextCost(s, style)
  {
    assert s == s[..from] + s[from..to] + s[to..];
    TextCostAppend(s[..from], s[from..to], style);
    TextCostAppend(s[..from] + s[from..to], s[to..], style);
  }

  lemma StripCost(s: string, style: Style)
    ensures TextCost(Strip(s), style) <= TextCost(s, style)
  {
    var l := LStrip(s);
    var r := RStrip(l);
    assert r == s[|s| - |l|..|s| - |l| + |r|];
    SliceCost(s, |s| - |l|, |s| - |l| + |r|, style);
  }

  lemma LastItemCost(init: seq<string>, last: string, style: Style)
    ensures ItemsCost(TextItems(init + [last]), style)
         == ItemsCost(TextItems(init), style) + TextSize(last, style) + SeparatorSize(style)
  {
    assert TextItems(init + [last]) == TextItems(init) + [Str(last)];
    ItemsCostAppend(TextItems(init), [Str(last)], style);
  }

  lemma {:induction false} DedupeCost(values: seq<string>, style: Style)
    ensures ItemsCost(TextItems(Dedupe(values)), style) <= ItemsCost(TextItems(values), style)
  {
    if values != [] {
      var init, last := values[..|values| - 1], values[|values| - 1];
      DedupeCost(init, style);
      assert values == init + [last];
      LastItemCost(init, last, style);
      LastItemCost(Dedupe(init), last, style);
    }
  }

  lemma {:induction false} EachCostsLess(a: seq<string>, b: seq<string>, style: Style)
    requires |a| == |b| && forall i :: 0 <= i < |a| ==> TextCost(a[i], style) <= TextCost(b[i], style)
    ensures ItemsCost(TextItems(a), style) <= ItemsCost(TextItems(b), style)
  {
    if a == [] {
      assert b == [];
    } else {
      var n := |a| - 1;
      EachCostsLess(a[..n], b[..n], style);
      LastItemCost(a[..n], a[n], style);
      LastItemCost(b[..n], b[n], style);
      assert a == a[..n] + [a[n]] && b == b[..n] + [b[n]];
    }
  }

  lemma StrippedCost(values: seq<string>, style: Style)
    ensures ItemsCost(TextItems(Stripped(values)), style) <= ItemsCost(TextItems(values), style)
  {
    forall i | 0 <= i < |values| ensures TextCost(Stripped(values)[i], style) <= TextCost(values[i], style) {
      StripCost(values[i], style);
    }
    EachCostsLess(Stripped(values), values, style);
  }

  /** Cleaning a list of texts never makes its serialized form longer. */
  lemma CleaningNeverGrows(values: seq<string>, style: Style)
    ensures Size(Strings(CleanRefs(values)), style) <= Size(Strings(values), style)
  {
    StrippedCost(values, style);
    DedupeCost(Stripped(values), style);
    if values != [] {
      assert TextItems(values)[0] == Str(values[0]);
    }
  }
}

/** Building one context pack and fitting it to its budget (src/finharness/agent_context.py). */
module ContextPack {
  import opened Common
  import opened Json
  import opened ContextBounding
  import opened Refs
  import StringOrder

  const ADMISSION_KEYS: seq<string> := [
    "world_id", "basis_digest", "world_status", "selected_batch_ids", "trust", "capital_truth",
    "asset_valuation_admitted", "net_worth_admitted", "per_currency_totals", "liability_per_currency_totals",
    "asset_valuation_blockers", "net_worth_blockers", "concentration_flagged"
  ]

  const CAPITAL_SUMMARY := "capital_summary"

  datatype Pack = Pack(
    name: string,
    available: bool,
    summary: seq<Field>,
    sourceRefs: seq<string>,
    dataGaps: seq<string>,
    nonClaims: seq<string>)

  datatype PackSpec = PackSpec(name: string, maxItems: nat, maxChars: nat)

  const CAPITAL_SPEC := PackSpec(CAPITAL_SUMMARY, 10, 6000)

  function PackJson(p: Pack): Json {
    Obj([
      Field("name", Str(p.name)), Field("available", Bool(p.available)), Field("summary", Obj(p.summary)),
      Field("source_refs", Strings(p.sourceRefs)), Field("data_gaps", Strings(p.dataGaps)),
      Field("non_claims", Strings(p.nonClaims)), Field("execution_allowed", Bool(false))
    ])
  }

  /** The fields of `summary` named by `keys`, in the order of `keys`. */
  function Selected(summary: seq<Field>, keys: seq<string>): seq<Field> {
    if keys == [] then []
    else
      var v := Lookup(summary, keys[0]);
      (if v.Some? then [Field(keys[0], v.value)] else []) + Selected(summary, keys[1..])
  }

  /** _summary_compact_marker, the same in both files. */
  function CompactMarker(packName: string, summary: seq<Field>): seq<Field> {
    [Field("compacted", Bool(true))] + (if packName == CAPITAL_SUMMARY then Selected(summary, ADMISSION_KEYS) else [])
  }

  predicate Fits(p: Pack, spec: PackSpec) {
    Size(PackJson(p), Compact) <= spec.maxChars
  }

  function ExceededNotice(spec: PackSpec, what: string): string {
    "context pack exceeded " + Decimal(spec.maxChars) + " chars; " + what
  }

  function Compacted(p: Pack, spec: PackSpec): Pack {
    p.(summary := BoundedSummary(p.summary, Limits(Max(1, spec.maxItems / 2), 240, true)),
       dataGaps := Dedupe(p.dataGaps + [ExceededNotice(spec, "summary was compacted")]))
  }

  function Marked(p: Pack, spec: PackSpec): Pack {
    p.(summary := CompactMarker(p.name, p.summary),
       dataGaps := Dedupe(p.dataGaps + [ExceededNotice(spec, "summary was replaced by compact marker")]))
  }

  const LAST_NOTICE: string := "summary and source " + "refs were replaced " + "by compact markers"

  const LAST_CLAIMS: seq<string> := ["Not execution " + "authorization.", "Not investment " + "advice."]

  function BareMinimum(p: Pack, spec: PackSpec): Pack {
    p.(sourceRefs := [],
       dataGaps := [ExceededNotice(spec, LAST_NOTICE)],
       nonClaims := LAST_CLAIMS)
  }

  /** _fit_pack_to_budget: the first rung that fits, or the last. */
  function Fit(p: Pack, spec: PackSpec): Pack {
    if Fits(p, spec) then p
    else
      var compacted := Compacted(p, spec);
      if Fits(compacted, spec) then compacted
      else
        var marked := Marked(compacted, spec);
        if Fits(marked, spec) then marked else BareMinimum(marked, spec)
  }

  /** The bounded pack _pack makes, before it is fitted. */
  function Prepared(p: Pack, spec: PackSpec): Pack {
    var refs := StringOrder.Sorted(set x | x in p.sourceRefs && x != "");
    var gaps := Dedupe(p.dataGaps);
    Pack(p.name, p.available, BoundedSummary(p.summary, Limits(spec.maxItems, 500, true)),
         Take(refs, spec.maxItems),
         if |refs| > spec.maxItems then gaps + ["source refs truncated to " + Decimal(spec.maxItems) + " items"] else gaps,
         Dedupe(p.nonClaims))
  }

  /** _pack */
  function Build(p: Pack, spec: PackSpec): Pack {
    Fit(Prepared(p, spec), spec)
  }

  // ------------------------------------------------ what survives the rungs

  /** Values no rung of either ladder touches. */
  predicate Stable(v: Json) {
    v.Null? || v.Bool? || v.Num? || (v.Str? && |v.s| <= 240)
  }

  /** The key is still present, and an untouchable value is unchanged. */
  predicate Survives(key: string, before: seq<Field>, after: seq<Field>) {
    var v := Lookup(before, key);
    v.Some? ==> Lookup(after, key).Some? && (Stable(v.value) ==> Lookup(after, key) == v)
  }

  lemma SurvivesTwice(key: string, a: seq<Field>, b: seq<Field>, c: seq<Field>)
    requires Survives(key, a, b) && Survives(key, b, c)
    ensures Survives(key, a, c)
  {
  }

  lemma BoundingSurvives(key: string, fields: seq<Field>, l: Limits)
    requires l.maxChars >= 240
    ensures Survives(key, fields, BoundedSummary(fields, l))
  {
    SummaryKeepsKeys(fields, l);
  }

  lemma {:induction false} LookupSelected(summary: seq<Field>, keys: seq<string>, key: string)
    ensures Lookup(Selected(summary, keys), key) == if key in keys then Lookup(summary, key) else None
  {
    if keys != [] {
      LookupSelected(summary, keys[1..], key);
      var rest := Selected(summary, keys[1..]);
      var s := Selected(summary, keys);
      assert keys == [keys[0]] + keys[1..];
      assert s == rest || s[1..] == rest;
    }
  }

  lemma AdmissionKeysAreNotTheMark(key: string)
    requires key in ADMISSION_KEYS
    ensures key != "compacted"
  {
  }

  lemma MarkerLookup(key: string, summary: seq<Field>)
    requires key in ADMISSION_KEYS
    ensures Lookup(CompactMarker(CAPITAL_SUMMARY, summary), key) == Lookup(summary, key)
  {
    AdmissionKeysAreNotTheMark(key);
    LookupSelected(summary, ADMISSION_KEYS, key);
    var m := CompactMarker(CAPITAL_SUMMARY, summary);
    assert m[1..] == Selected(summary, ADMISSION_KEYS);
  }

  lemma MarkerSurvives(key: string, summary: seq<Field>)
    requires key in ADMISSION_KEYS
    ensures Survives(key, summary, CompactMarker(CAPITAL_SUMMARY, summary))
  {
    MarkerLookup(key, summary);
  }

  lemma FitSurvives(key: string, p: Pack, spec: PackSpec)
    requires key in ADMISSION_KEYS && p.name == CAPITAL_SUMMARY
    ensures Survives(key, p.summary, Fit(p, spec).summary)
    ensures Fit(p, spec).name == p.name
  {
    var compacted := Compacted(p, spec);
    var marked := Marked(compacted, spec);
    BoundingSurvives(key, p.summary, Limits(Max(1, spec.maxItems / 2), 240, true));
    MarkerSurvives(key, compacted.summary);
    SurvivesTwice(key, p.summary, compacted.summary, marked.summary);
    FitIsARung(p, spec);
  }

  lemma FitIsARung(p: Pack, spec: PackSpec)
    ensures var out := Fit(p, spec); var compacted := Compacted(p, spec);
      && out.name == p.name
      && (out.summary == p.summary || out.summary == compacted.summary
          || out.summary == Marked(compacted, spec).summary)
      && (Fits(out, spec) || out.summary == Marked(compacted, spec).summary)
  {
  }

  /** Every gap the pack had is still there, and so is the notice. */
  predicate GapsWithNotice(gaps: seq<string>, p: Pack, notice: string) {
    notice in gaps && forall g :: g in p.dataGaps && g != "" ==> g in gaps
  }

  lemma DedupeAdds(gaps: seq<string>, notice: string)
    requires notice != ""
    ensures notice in Dedupe(gaps + [notice]) && forall g :: g in gaps && g != "" ==> g in Dedupe(gaps + [notice])
  {
    DedupeMembers(gaps + [notice]);
    assert (gaps + [notice])[|gaps|] == notice;
  }

  /** Each rung is taken only when the one before is too large. A pack that fits is untouched. One that
      fits once its summary is bounded to half the items and 240 characters keeps every summary key in
      order, its references, claims and gaps. One that fits with a marker for its summary still keeps its
      references, claims and gaps. Only the last rung drops them. */
  lemma LadderIsMinimal(p: Pack, spec: PackSpec)
    ensures var out := Fit(p, spec); var compacted := Compacted(p, spec); var marked := Marked(compacted, spec);
      && out.name == p.name && out.available == p.available
      && (Fits(p, spec) ==> out == p)
      && (!Fits(p, spec) && Fits(compacted, spec) ==>
            && Fits(out, spec)
            && out.summary == BoundedSummary(p.summary, Limits(Max(1, spec.maxItems / 2), 240, true))
            && Keys(out.summary) == Keys(p.summary)
            && out.sourceRefs == p.sourceRefs && out.nonClaims == p.nonClaims
            && GapsWithNotice(out.dataGaps, p, ExceededNotice(spec, "summary was compacted")))
      && (!Fits(p, spec) && !Fits(compacted, spec) && Fits(marked, spec) ==>
            && Fits(out, spec)
            && out.summary == CompactMarker(p.name, compacted.summary)
            && out.sourceRefs == p.sourceRefs && out.nonClaims == p.nonClaims
            && GapsWithNotice(out.dataGaps, p, ExceededNotice(spec, "summary was replaced by compact marker")))
      && (!Fits(p, spec) && !Fits(compacted, spec) && !Fits(marked, spec) ==>
            && out.summary == CompactMarker(p.name, compacted.summary) && out.sourceRefs == []
            && out.dataGaps == [ExceededNotice(spec, LAST_NOTICE)] && out.nonClaims == LAST_CLAIMS)
  {
    var compacted := Compacted(p, spec);
    LadderGaps(p, spec);
    SummaryKeepsKeys(p.summary, Limits(Max(1, spec.maxItems / 2), 240, true));
  }

  lemma LadderGaps(p: Pack, spec: PackSpec)
    ensures var compacted := Compacted(p, spec); var marked := Marked(compacted, spec);
      && GapsWithNotice(compacted.dataGaps, p, ExceededNotice(spec, "summary was compacted"))
      && GapsWithNotice(marked.dataGaps, p, ExceededNotice(spec, "summary was replaced by compact marker"))
  {
    var compacted := Compacted(p, spec);
    NoticeNotEmpty(spec, "summary was compacted");
    NoticeNotEmpty(spec, "summary was replaced by compact marker");
    DedupeAdds(p.dataGaps, ExceededNotice(spec, "summary was compacted"));
    DedupeAdds(compacted.dataGaps, ExceededNotice(spec, "summary was replaced by compact marker"));
  }

  lemma NoticeNotEmpty(spec: PackSpec, what: string)
    ensures ExceededNotice(spec, what) != ""
  {
    assert |ExceededNotice(spec, what)| > 0;
  }

  /** So a pack comes back as it was exactly when it fits, or when no rung helps and it is already what the
      last one makes of it. */
  lemma FitUntouchedIff(p: Pack, spec: PackSpec)
    ensures var compacted := Compacted(p, spec); var marked := Marked(compacted, spec);
      Fit(p, spec) == p <==>
        Fits(p, spec) || (!Fits(compacted, spec) && !Fits(marked, spec) && p == BareMinimum(marked, spec))
  {
  }

  /** The second case does arise: with no budget at all, what the last rung makes comes back untouched. */
  lemma UntouchedThoughTooLarge()
    ensures var spec := PackSpec("ips_check", 10, 0);
      var p := Pack("ips_check", true, [Field("compacted", Bool(true))], [], [ExceededNotice(spec, LAST_NOTICE)], LAST_CLAIMS);
      Fit(p, spec) == p && !Fits(p, spec)
  {
    var spec := PackSpec("ips_check", 10, 0);
    var p := Pack("ips_check", true, [Field("compacted", Bool(true))], [], [ExceededNotice(spec, LAST_NOTICE)], LAST_CLAIMS);
    assert forall q: Pack :: Size(PackJson(q), Compact) >= 2;
    SummaryKeepsKeys(p.summary, Limits(5, 240, true));
    assert CompactMarker(p.name, Compacted(p, spec).summary) == p.summary;
  }

  /** What the pack holds before it is fitted: the summary bounded to the spec's items, each reference once
      in order up to that many with a gap when there were more, each gap and claim once. */
  lemma PreparedExact(p: Pack, spec: PackSpec)
    ensures var q := Prepared(p, spec); var refs := set x | x in p.sourceRefs && x != "";
      && q.name == p.name && q.available == p.available
      && Keys(q.summary) == Keys(p.summary)
      && (forall key :: Lookup(q.summary, key) == BoundedOption(Lookup(p.summary, key), Limits(spec.maxItems, 500, true)))
      && StringOrder.Ascending(q.sourceRefs) && |q.sourceRefs| == Min(spec.maxItems, |refs|)
      && (forall x :: x in q.sourceRefs ==> x in refs)
      && (forall x, y :: x in q.sourceRefs && y in refs && y !in q.sourceRefs ==> StringOrder.Leq(x, y))
      && q.dataGaps == Dedupe(p.dataGaps)
           + (if |refs| > spec.maxItems then ["source refs truncated to " + Decimal(spec.maxItems) + " items"] else [])
      && q.nonClaims == Dedupe(p.nonClaims)
  {
    var refs := StringOrder.Sorted(set x | x in p.sourceRefs && x != "");
    SummaryKeepsKeys(p.summary, Limits(spec.maxItems, 500, true));
    FirstOfSorted(refs, spec.maxItems);
  }

  lemma FirstOfSorted(refs: seq<string>, n: nat)
    requires StringOrder.Ascending(refs)
    ensures var kept := Take(refs, n);
      && StringOrder.Ascending(kept) && |kept| == Min(n, |refs|)
      && (forall x :: x in kept ==> x in refs)
      && (forall x, y :: x in kept && y in refs && y !in kept ==> StringOrder.Leq(x, y))
  {
    var kept := Take(refs, n);
    assert forall i :: 0 <= i < |kept| ==> kept[i] == refs[i] && refs[i] in kept;
  }

  /** Some gap is the notice of a rung taken. */
  ghost predicate Announced(gaps: seq<string>, spec: PackSpec) {
    exists what :: ExceededNotice(spec, what) in gaps
  }

  lemma NoticeKept(gaps: seq<string>, spec: PackSpec, what: string)
    ensures Announced(Dedupe(gaps + [ExceededNotice(spec, what)]), spec)
  {
    var notice := ExceededNotice(spec, what);
    assert notice[0] == 'c';
    assert (gaps + [notice])[|gaps|] == notice;
    DedupeExact(gaps + [notice]);
  }

  lemma CompactedAnnounces(p: Pack, spec: PackSpec)
    ensures Announced(Compacted(p, spec).dataGaps, spec)
  {
    NoticeKept(p.dataGaps, spec, "summary was compacted");
  }

  lemma MarkedAnnounces(p: Pack, spec: PackSpec)
    ensures Announced(Marked(p, spec).dataGaps, spec)
  {
    NoticeKept(p.dataGaps, spec, "summary was replaced by compact marker");
  }

  lemma NoticeAlone(spec: PackSpec, what: string)
    ensures Announced([ExceededNotice(spec, what)], spec)
  {
    assert ExceededNotice(spec, what) in [ExceededNotice(spec, what)];
  }

  /** A pack the ladder changed says so: one of its gaps is the notice of the rung taken. */
  lemma CompactionIsAnnounced(p: Pack, spec: PackSpec)
    ensures Fit(p, spec) == p || Announced(Fit(p, spec).dataGaps, spec)
  {
    var compacted := Compacted(p, spec);
    CompactedAnnounces(p, spec);
    MarkedAnnounces(compacted, spec);
    NoticeAlone(spec, LAST_NOTICE);
  }

  /** Whichever rung is taken, a built capital summary still has every admission key it was given. */
  lemma BuildSurvives(key: string, p: Pack, spec: PackSpec)
    requires key in ADMISSION_KEYS && p.name == CAPITAL_SUMMARY
    ensures Survives(key, p.summary, Build(p, spec).summary)
    ensures Build(p, spec).name == p.name
  {
    BoundingSurvives(key, p.summary, Limits(spec.maxItems, 500, true));
    FitSurvives(key, Prepared(p, spec), spec);
    SurvivesTwice(key, p.summary, Prepared(p, spec).summary, Build(p, spec).summary);
  }
}
