/** When fitting a projected pack to its budget succeeds (src/finharness/agent_context_projection.py). */
module ProjectionBudget {
  import opened Common
  import opened Json
  import opened ContextBounding
  import opened Refs
  import opened ContextPack
  import opened ContextProjection
  import opened ContextBudget

  // ------------------------------------------------- objects, field by field

  lemma {:induction false} TextCostAtMostTwelve(s: string)
    ensures TextCost(s, Dumps) <= 12 * |s|
  {
    if s != [] {
      TextCostAtMostTwelve(s[..|s| - 1]);
    }
  }

  /** Key lengths, and value sizes, of the first `n` fields. */
  function KeyLength(f: seq<Field>, n: nat): nat
    requires n <= |f|
  {
    if n == 0 then 0 else KeyLength(f, n - 1) + |f[n - 1].key|
  }

  function ValueSize(f: seq<Field>, n: nat): nat
    requires n <= |f|
  {
    if n == 0 then 0 else ValueSize(f, n - 1) + Size(f[n - 1].value, Dumps)
  }

  lemma {:induction false} FieldsAtMost(f: seq<Field>, n: nat)
    requires n <= |f|
    ensures FieldsCost(f[..n], Dumps) <= 12 * KeyLength(f, n) + ValueSize(f, n) + 6 * n
  {
    if n > 0 {
      FieldsAtMost(f, n - 1);
      assert f[..n] == f[..n - 1] + [f[n - 1]];
      LastFieldCost(f[..n - 1], f[n - 1], Dumps);
      TextCostAtMostTwelve(f[n - 1].key);
    }
  }

  lemma SumsStep(f: seq<Field>, n: nat)
    requires n < |f|
    ensures KeyLength(f, n + 1) == KeyLength(f, n) + |f[n].key|
    ensures ValueSize(f, n + 1) == ValueSize(f, n) + Size(f[n].value, Dumps)
  {
  }

  lemma SixSums(f: seq<Field>)
    requires |f| >= 6
    ensures KeyLength(f, 6) == |f[0].key| + |f[1].key| + |f[2].key| + |f[3].key| + |f[4].key| + |f[5].key|
    ensures ValueSize(f, 6) == Size(f[0].value, Dumps) + Size(f[1].value, Dumps) + Size(f[2].value, Dumps)
      + Size(f[3].value, Dumps) + Size(f[4].value, Dumps) + Size(f[5].value, Dumps)
  {
    SumsStep(f, 0);
    SumsStep(f, 1);
    SumsStep(f, 2);
    SumsStep(f, 3);
    SumsStep(f, 4);
    SumsStep(f, 5);
  }

  lemma EightSums(f: seq<Field>)
    requires |f| >= 8
    ensures KeyLength(f, 8) == |f[0].key| + |f[1].key| + |f[2].key| + |f[3].key| + |f[4].key| + |f[5].key|
      + |f[6].key| + |f[7].key|
    ensures ValueSize(f, 8) == Size(f[0].value, Dumps) + Size(f[1].value, Dumps) + Size(f[2].value, Dumps)
      + Size(f[3].value, Dumps) + Size(f[4].value, Dumps) + Size(f[5].value, Dumps)
      + Size(f[6].value, Dumps) + Size(f[7].value, Dumps)
  {
    SixSums(f);
    SumsStep(f, 6);
    SumsStep(f, 7);
  }

  /** A field's cost once the cost of its key is known. */
  function KeyedCost(f: Field, key: nat): nat {
    key + 6 + Size(f.value, Dumps)
  }

  predicate HasKeyCost(f: Field, key: nat) {
    TextCost(f.key, Dumps) == key
  }

  lemma LastKeyed(init: seq<Field>, f: Field, key: nat)
    requires HasKeyCost(f, key)
    ensures FieldsCost(init + [f], Dumps) == FieldsCost(init, Dumps) + KeyedCost(f, key)
  {
    LastFieldCost(init, f, Dumps);
  }

  lemma FourKeyed(a: Field, b: Field, c: Field, d: Field, ka: nat, kb: nat, kc: nat, kd: nat)
    requires HasKeyCost(a, ka) && HasKeyCost(b, kb) && HasKeyCost(c, kc) && HasKeyCost(d, kd)
    ensures FieldsCost([a, b, c, d], Dumps) == KeyedCost(a, ka) + KeyedCost(b, kb) + KeyedCost(c, kc) + KeyedCost(d, kd)
  {
    LastKeyed([], a, ka);
    LastKeyed([] + [a], b, kb);
    LastKeyed([] + [a] + [b], c, kc);
    LastKeyed([] + [a] + [b] + [c], d, kd);
    assert [] + [a] + [b] + [c] + [d] == [a, b, c, d];
  }

  lemma FiveKeyed(a: Field, b: Field, c: Field, d: Field, e: Field, ka: nat, kb: nat, kc: nat, kd: nat, ke: nat)
    requires HasKeyCost(a, ka) && HasKeyCost(b, kb) && HasKeyCost(c, kc) && HasKeyCost(d, kd) && HasKeyCost(e, ke)
    ensures FieldsCost([a, b, c, d, e], Dumps) ==
      KeyedCost(a, ka) + KeyedCost(b, kb) + KeyedCost(c, kc) + KeyedCost(d, kd) + KeyedCost(e, ke)
  {
    FourKeyed(a, b, c, d, ka, kb, kc, kd);
    LastKeyed([a, b, c, d], e, ke);
    assert [a, b, c, d] + [e] == [a, b, c, d, e];
  }

  // ------------------------------------------------ the size of a projection

  function ListSize(texts: seq<string>): nat {
    Size(Strings(texts), Dumps)
  }

  function BoolSize(b: bool): nat {
    if b then 4 else 5
  }

  function ToolSize(toolName: Option<string>): nat {
    if toolName.Some? then TextSize(toolName.value, Dumps) else 4
  }

  function ReceiptsSize(p: Projected): nat {
    (if p.receiptRefs != [] then ListSize(p.receiptRefs) + 18 else 0)
    + (if p.receiptRef.Some? then TextSize(p.receiptRef.value, Dumps) + 17 else 0)
  }

  function Digits(n: nat): nat {
    |Decimal(n)|
  }

  function SpecSize(spec: Spec): nat {
    2 * TextCost(spec.packName, Dumps) + ListSize(spec.summaryKeys)
    + Digits(spec.priority) + Digits(spec.maxChars) + Digits(spec.maxItems) + Digits(spec.maxSourceRefs)
  }

  function ProjectionSize(p: Projection): nat {
    TextCost(p.profileName, Dumps) + ToolSize(p.toolName) + SpecSize(p.spec)
    + ListSize(p.droppedKeys) + ListSize(p.droppedTopLevelKeys)
    + Digits(p.originalSourceRefCount) + Digits(p.originalChars) + BoolSize(p.sourceRefsTruncated) + BoolSize(p.truncated)
  }

  function ContentSize(p: Projected): nat {
    TextCost(p.name, Dumps) + BoolSize(p.available) + Size(Obj(p.summary), Dumps)
    + ListSize(p.sourceRefs) + ListSize(p.dataGaps) + ListSize(p.nonClaims) + ListSize(p.contextPackRefs) + ReceiptsSize(p)
  }

  /** The size measured while projected_chars holds 0. */
  function BlankSize(p: Projected): nat {
    ContentSize(p) + ProjectionSize(p.projection) + 592
  }

  /** What a size grows to once projected_chars holds it in place of 0. */
  function Filled(chars: nat): nat {
    chars + Digits(chars) - 1
  }

  function FilledSize(p: Projected): nat {
    Filled(BlankSize(p))
  }

  lemma LeadingKeys(p: Projected)
    ensures var f := LeadingFields(p);
      HasKeyCost(f[0], 4) && HasKeyCost(f[1], 9) && HasKeyCost(f[2], 7) && HasKeyCost(f[3], 11)
  {
    PlainTextCost("name", Dumps);
    PlainTextCost("available", Dumps);
    PlainTextCost("summary", Dumps);
    PlainTextCost("source_refs", Dumps);
  }

  lemma LeadingSizes(f: seq<Field>)
    requires |f| == 4
    requires HasKeyCost(f[0], 4) && HasKeyCost(f[1], 9) && HasKeyCost(f[2], 7) && HasKeyCost(f[3], 11)
    ensures FieldsCost(f, Dumps) == 55 + Size(f[0].value, Dumps) + Size(f[1].value, Dumps) + Size(f[2].value, Dumps)
      + Size(f[3].value, Dumps)
  {
    FourKeyed(f[0], f[1], f[2], f[3], 4, 9, 7, 11);
    assert f == [f[0], f[1], f[2], f[3]];
  }

  lemma LeadingCost(p: Projected)
    ensures FieldsCost(LeadingFields(p), Dumps) ==
      57 + TextCost(p.name, Dumps) + BoolSize(p.available) + Size(Obj(p.summary), Dumps) + ListSize(p.sourceRefs)
  {
    LeadingKeys(p);
    LeadingSizes(LeadingFields(p));
  }

  lemma TrailingKeys(p: Projected)
    ensures var f := TrailingFields(p);
      HasKeyCost(f[0], 9) && HasKeyCost(f[1], 10) && HasKeyCost(f[2], 17) && HasKeyCost(f[3], 17)
  {
    PlainTextCost("data_gaps", Dumps);
    PlainTextCost("non_claims", Dumps);
    PlainTextCost("execution_allowed", Dumps);
    PlainTextCost("context_pack_refs", Dumps);
  }

  lemma TrailingSizes(f: seq<Field>)
    requires |f| == 4
    requires HasKeyCost(f[0], 9) && HasKeyCost(f[1], 10) && HasKeyCost(f[2], 17) && HasKeyCost(f[3], 17)
    ensures FieldsCost(f, Dumps) == 77 + Size(f[0].value, Dumps) + Size(f[1].value, Dumps) + Size(f[2].value, Dumps)
      + Size(f[3].value, Dumps)
  {
    FourKeyed(f[0], f[1], f[2], f[3], 9, 10, 17, 17);
    assert f == [f[0], f[1], f[2], f[3]];
  }

  lemma TrailingCost(p: Projected)
    ensures FieldsCost(TrailingFields(p), Dumps) ==
      82 + ListSize(p.dataGaps) + ListSize(p.nonClaims) + ListSize(p.contextPackRefs)
  {
    TrailingKeys(p);
    TrailingSizes(TrailingFields(p));
  }

  lemma FixedCost(p: Projected)
    ensures FieldsCost(FixedFields(p), Dumps) == 139 + ContentSize(p) - ReceiptsSize(p)
  {
    LeadingCost(p);
    TrailingCost(p);
    FieldsCostAppend(LeadingFields(p), TrailingFields(p), Dumps);
  }

  lemma ReceiptKeys()
    ensures TextCost("receipt_refs", Dumps) == 12 && TextCost("receipt_ref", Dumps) == 11
  {
    PlainTextCost("receipt_refs", Dumps);
    PlainTextCost("receipt_ref", Dumps);
  }

  lemma OneKeyed(f: Field, key: nat)
    requires HasKeyCost(f, key)
    ensures FieldsCost([f], Dumps) == KeyedCost(f, key)
  {
    OneFieldCost(f, Dumps);
  }

  lemma ReceiptCost(p: Projected)
    ensures FieldsCost(ReceiptFields(p), Dumps) == ReceiptsSize(p)
  {
    var a := if p.receiptRefs != [] then [Field("receipt_refs", Strings(p.receiptRefs))] else [];
    var b := if p.receiptRef.Some? then [Field("receipt_ref", Str(p.receiptRef.value))] else [];
    FieldsCostAppend(a, b, Dumps);
    ReceiptKeys();
    if p.receiptRefs != [] {
      OneKeyed(a[0], 12);
    }
    if p.receiptRef.Some? {
      OneKeyed(b[0], 11);
    }
  }

  lemma OriginKeys(p: Projection)
    ensures var f := OriginFields(p);
      HasKeyCost(f[0], 12) && HasKeyCost(f[1], 9) && HasKeyCost(f[2], 15) && HasKeyCost(f[3], 9) && HasKeyCost(f[4], 16)
  {
    OriginKeyCosts();
    KindKeyCosts();
  }

  lemma OriginKeyCosts()
    ensures TextCost("profile_name", Dumps) == 12 && TextCost("tool_name", Dumps) == 9 && TextCost("pack_name", Dumps) == 9
  {
    PlainTextCost("profile_name", Dumps);
    PlainTextCost("tool_name", Dumps);
    PlainTextCost("pack_name", Dumps);
  }

  lemma KindKeyCosts()
    ensures TextCost("projection_kind", Dumps) == 15 && TextCost("context_pack_ref", Dumps) == 16
  {
    PlainTextCost("projection_kind", Dumps);
    PlainTextCost("context_pack_ref", Dumps);
  }

  lemma RefTextSize(packName: string)
    ensures TextSize(ContextPackRef(packName), Dumps) == TextCost(packName, Dumps) + 17
  {
    SchemeCost();
    PrefixedSize("context_pack://", packName);
  }

  lemma SchemeCost()
    ensures TextCost("context_pack://", Dumps) == 15
  {
    PlainTextCost("context_pack://", Dumps);
  }

  lemma PrefixedSize(head: string, tail: string)
    ensures TextSize(head + tail, Dumps) == TextCost(head, Dumps) + TextCost(tail, Dumps) + 2
  {
    TextCostAppend(head, tail, Dumps);
  }

  lemma OriginSizes(f: seq<Field>)
    requires |f| == 5
    requires HasKeyCost(f[0], 12) && HasKeyCost(f[1], 9) && HasKeyCost(f[2], 15) && HasKeyCost(f[3], 9) && HasKeyCost(f[4], 16)
    ensures FieldsCost(f, Dumps) == 91 + Size(f[0].value, Dumps) + Size(f[1].value, Dumps) + Size(f[2].value, Dumps)
      + Size(f[3].value, Dumps) + Size(f[4].value, Dumps)
  {
    FiveKeyed(f[0], f[1], f[2], f[3], f[4], 12, 9, 15, 9, 16);
    assert f == [f[0], f[1], f[2], f[3], f[4]];
  }

  lemma KindSize()
    ensures TextSize("context_pack", Dumps) == 14
  {
    PlainTextCost("context_pack", Dumps);
  }

  lemma OriginCost(p: Projection)
    ensures FieldsCost(OriginFields(p), Dumps) ==
      126 + TextCost(p.profileName, Dumps) + ToolSize(p.toolName) + 2 * TextCost(p.spec.packName, Dumps)
  {
    OriginKeys(p);
    OriginSizes(OriginFields(p));
    KindSize();
    RefTextSize(p.spec.packName);
  }

  lemma SpecKeys(spec: Spec)
    ensures var f := SpecFields(spec);
      HasKeyCost(f[0], 8) && HasKeyCost(f[1], 9) && HasKeyCost(f[2], 9) && HasKeyCost(f[3], 15) && HasKeyCost(f[4], 12)
  {
    LimitKeyCosts();
    SourceLimitKeyCosts();
  }

  lemma LimitKeyCosts()
    ensures TextCost("priority", Dumps) == 8 && TextCost("max_chars", Dumps) == 9 && TextCost("max_items", Dumps) == 9
  {
    PlainTextCost("priority", Dumps);
    PlainTextCost("max_chars", Dumps);
    PlainTextCost("max_items", Dumps);
  }

  lemma SourceLimitKeyCosts()
    ensures TextCost("max_source_refs", Dumps) == 15 && TextCost("summary_keys", Dumps) == 12
  {
    PlainTextCost("max_source_refs", Dumps);
    PlainTextCost("summary_keys", Dumps);
  }

  lemma SpecSizes(f: seq<Field>)
    requires |f| == 5
    requires HasKeyCost(f[0], 8) && HasKeyCost(f[1], 9) && HasKeyCost(f[2], 9) && HasKeyCost(f[3], 15) && HasKeyCost(f[4], 12)
    ensures FieldsCost(f, Dumps) == 83 + Size(f[0].value, Dumps) + Size(f[1].value, Dumps) + Size(f[2].value, Dumps)
      + Size(f[3].value, Dumps) + Size(f[4].value, Dumps)
  {
    FiveKeyed(f[0], f[1], f[2], f[3], f[4], 8, 9, 9, 15, 12);
    assert f == [f[0], f[1], f[2], f[3], f[4]];
  }

  lemma SpecCost(spec: Spec)
    ensures FieldsCost(SpecFields(spec), Dumps) == 83 + SpecSize(spec) - 2 * TextCost(spec.packName, Dumps)
  {
    SpecKeys(spec);
    SpecSizes(SpecFields(spec));
  }

  lemma DroppedKeyCosts()
    ensures TextCost("dropped_summary_keys", Dumps) == 20 && TextCost("dropped_top_level_keys", Dumps) == 22
  {
    PlainTextCost("dropped_summary_keys", Dumps);
    PlainTextCost("dropped_top_level_keys", Dumps);
  }

  lemma SourceKeyCosts()
    ensures TextCost("original_source_ref_count", Dumps) == 25 && TextCost("source_refs_truncated", Dumps) == 21
  {
    PlainTextCost("original_source_ref_count", Dumps);
    PlainTextCost("source_refs_truncated", Dumps);
  }

  lemma OmissionSizes(f: seq<Field>)
    requires |f| == 4
    requires HasKeyCost(f[0], 20) && HasKeyCost(f[1], 22) && HasKeyCost(f[2], 25) && HasKeyCost(f[3], 21)
    ensures FieldsCost(f, Dumps) == 112 + Size(f[0].value, Dumps) + Size(f[1].value, Dumps) + Size(f[2].value, Dumps)
      + Size(f[3].value, Dumps)
  {
    FourKeyed(f[0], f[1], f[2], f[3], 20, 22, 25, 21);
    assert f == [f[0], f[1], f[2], f[3]];
  }

  lemma OmissionCost(p: Projection)
    ensures FieldsCost(OmissionFields(p), Dumps) == 112
      + ListSize(p.droppedKeys) + ListSize(p.droppedTopLevelKeys) + Digits(p.originalSourceRefCount)
      + BoolSize(p.sourceRefsTruncated)
  {
    DroppedKeyCosts();
    SourceKeyCosts();
    OmissionSizes(OmissionFields(p));
  }

  lemma StatusKeys(p: Projection)
    ensures var f := StatusFields(p);
      HasKeyCost(f[0], 14) && HasKeyCost(f[1], 9) && HasKeyCost(f[2], 17) && HasKeyCost(f[3], 20)
  {
    StatusKeyCosts();
    AuthorityKeyCosts();
  }

  lemma StatusKeyCosts()
    ensures TextCost("original_chars", Dumps) == 14 && TextCost("truncated", Dumps) == 9
  {
    PlainTextCost("original_chars", Dumps);
    PlainTextCost("truncated", Dumps);
  }

  lemma AuthorityKeyCosts()
    ensures TextCost("execution_allowed", Dumps) == 17 && TextCost("authority_transition", Dumps) == 20
  {
    PlainTextCost("execution_allowed", Dumps);
    PlainTextCost("authority_transition", Dumps);
  }

  lemma StatusSizes(f: seq<Field>)
    requires |f| == 4
    requires HasKeyCost(f[0], 14) && HasKeyCost(f[1], 9) && HasKeyCost(f[2], 17) && HasKeyCost(f[3], 20)
    ensures FieldsCost(f, Dumps) == 84 + Size(f[0].value, Dumps) + Size(f[1].value, Dumps) + Size(f[2].value, Dumps)
      + Size(f[3].value, Dumps)
  {
    FourKeyed(f[0], f[1], f[2], f[3], 14, 9, 17, 20);
    assert f == [f[0], f[1], f[2], f[3]];
  }

  lemma StatusCost(p: Projection)
    ensures FieldsCost(StatusFields(p), Dumps) == 94 + Digits(p.originalChars) + BoolSize(p.truncated)
  {
    StatusKeys(p);
    StatusSizes(StatusFields(p));
  }

  lemma FourParts(a: seq<Field>, b: seq<Field>, c: seq<Field>, d: seq<Field>)
    ensures FieldsCost(a + b + c + d, Dumps) ==
      FieldsCost(a, Dumps) + FieldsCost(b, Dumps) + FieldsCost(c, Dumps) + FieldsCost(d, Dumps)
  {
    FieldsCostAppend(a, b, Dumps);
    FieldsCostAppend(a + b, c, Dumps);
    FieldsCostAppend(a + b + c, d, Dumps);
  }

  lemma ProjectionCost(p: Projection)
    ensures FieldsCost(ProjectionFields(p), Dumps) == 415 + ProjectionSize(p)
  {
    FourParts(OriginFields(p), SpecFields(p.spec), OmissionFields(p), StatusFields(p));
    OriginCost(p);
    SpecCost(p.spec);
    OmissionCost(p);
    StatusCost(p);
  }

  lemma OuterKeys()
    ensures TextSize("projection", Dumps) == 12 && TextSize("projected_chars", Dumps) == 17
  {
    PlainTextCost("projection", Dumps);
    PlainTextCost("projected_chars", Dumps);
  }

  /** The size of a projection, part by part. */
  lemma ProjectedSizeExact(p: Projected)
    ensures ProjectedSize(p) == BlankSize(p) + Digits(p.projection.projectedChars) - 1
  {
    FixedCost(p);
    ReceiptCost(p);
    FieldsCostAppend(FixedFields(p), ReceiptFields(p), Dumps);
    ProjectionCost(p.projection);
    OuterKeys();
    SizeSplits(p);
  }

  /** projected_chars itself does not count there. */
  lemma BlankIgnoresChars(p: Projected, n: nat)
    ensures BlankSize(p.(projection := p.projection.(projectedChars := n))) == BlankSize(p)
  {
    var q := p.(projection := p.projection.(projectedChars := n));
    assert ContentSize(q) == ContentSize(p);
    assert ProjectionSize(q.projection) == ProjectionSize(p.projection);
  }

  lemma BlankExact(p: Projected)
    ensures ProjectedSize(p.(projection := p.projection.(projectedChars := 0))) == BlankSize(p)
  {
    ProjectedSizeExact(p.(projection := p.projection.(projectedChars := 0)));
    BlankIgnoresChars(p, 0);
  }

  lemma MeasuredSizeExact(p: Projected)
    ensures ProjectedSize(Measured(p)) == FilledSize(p)
  {
    BlankExact(p);
    MeasuredSize(p);
  }

  // ------------------------------------------------------------ the ladder

  function CompactLimits(p: Projected): Limits {
    Limits(Max(1, p.projection.spec.maxItems / 2), 240, false)
  }

  /** What the marker rung keeps of the summary. */
  function ProjectionMarker(p: Projected): seq<Field> {
    CompactMarker(p.projection.spec.packName, BoundedSummary(p.summary, CompactLimits(p)))
  }

  lemma MeasuredForgets(p: Projected, n: nat)
    ensures Measured(p.(projection := p.projection.(projectedChars := n))) == Measured(p)
  {
  }

  lemma CompactReached(p: Projected)
    ensures Measured(CompactRung(Measured(p))) == Measured(CompactRung(p))
  {
    MeasuredForgets(CompactRung(p), Measured(p).projection.projectedChars);
    assert CompactRung(Measured(p)) ==
      CompactRung(p).(projection := CompactRung(p).projection.(projectedChars := Measured(p).projection.projectedChars));
  }

  lemma MarkerReached(p: Projected)
    ensures Measured(MarkerRung(Measured(p))) == Measured(MarkerRung(p))
  {
    MeasuredForgets(MarkerRung(p), Measured(p).projection.projectedChars);
    assert MarkerRung(Measured(p)) ==
      MarkerRung(p).(projection := MarkerRung(p).projection.(projectedChars := Measured(p).projection.projectedChars));
  }

  /** A record fits once fitted exactly when one of its three rungs does. */
  lemma FittedIff(p: Projected)
    ensures FitsBudget(FitProjected(p)) <==>
      FitsBudget(Measured(p)) || FitsBudget(Measured(CompactRung(p))) || FitsBudget(Measured(MarkerRung(CompactRung(p))))
  {
    CompactReached(p);
    MarkerReached(CompactRung(p));
  }

  lemma RungFits(p: Projected)
    ensures FitsBudget(Measured(p)) <==> FilledSize(p) <= p.projection.spec.maxChars
  {
    MeasuredSizeExact(p);
  }

  // ------------------------------------------------ nothing blank to drop

  predicate AllVisible(texts: seq<string>) {
    forall i :: 0 <= i < |texts| ==> Strip(texts[i]) != ""
  }

  lemma {:induction false} VisibleKeepsAll(texts: seq<string>)
    requires AllVisible(texts)
    ensures Visible(texts) == texts
  {
    if texts != [] {
      assert AllVisible(texts[1..]);
      VisibleKeepsAll(texts[1..]);
      assert texts == [texts[0]] + texts[1..];
    }
  }

  /** Text that starts with a letter is not blank. */
  lemma StripKeepsSome(s: string)
    requires s != [] && !IsSpace(s[0])
    ensures Strip(s) != ""
  {
    RStripDropsBlanks(s);
  }

  lemma StripOfStripped(x: string)
    requires Strip(x) != ""
    ensures Strip(Strip(x)) != ""
  {
    assert Strip(x)[0] == LStrip(x)[0];
    StripKeepsSome(Strip(x));
  }

  lemma CleanedAllVisible(values: seq<string>)
    ensures AllVisible(CleanRefs(values))
  {
    CleanRefsExact(values);
    forall i | 0 <= i < |CleanRefs(values)| ensures Strip(CleanRefs(values)[i]) != "" {
      assert CleanRefs(values)[i] in CleanRefs(values);
      var k :| 0 <= k < |values| && Strip(values[k]) == CleanRefs(values)[i];
      StripOfStripped(values[k]);
    }
  }

  lemma NoticeVisible(condition: bool, head: string, tail: string)
    requires head != [] && head[0] == 'c'
    ensures AllVisible(WhenNotice(condition, head + tail))
  {
    StripKeepsSome(head + tail);
  }

  lemma AllVisibleAppend(a: seq<string>, b: seq<string>)
    requires AllVisible(a) && AllVisible(b)
    ensures AllVisible(a + b)
  {
  }

  lemma OmissionsVisible(dropped: seq<string>, extra: seq<string>)
    ensures AllVisible(OmissionGaps(dropped, extra))
  {
    var a, b := "context projection omitted summary keys: ", "context projection omitted top-level keys: ";
    assert a[0] == 'c' && b[0] == 'c';
    NoticeVisible(dropped != [], a, Join(dropped, ", "));
    NoticeVisible(extra != [], b, Join(extra, ", "));
    AllVisibleAppend(WhenNotice(dropped != [], a + Join(dropped, ", ")), WhenNotice(extra != [], b + Join(extra, ", ")));
  }

  lemma TruncationsVisible(spec: Spec, refs: nat, gaps: nat)
    ensures AllVisible(TruncationGaps(spec, refs, gaps))
  {
    var a, b := "context projection truncated source refs to ", "context projection truncated data gaps to ";
    assert a[0] == 'c' && b[0] == 'c';
    NoticeVisible(refs > spec.maxSourceRefs, a, Decimal(spec.maxSourceRefs));
    NoticeVisible(gaps > spec.maxItems, b, Decimal(spec.maxItems));
    AllVisibleAppend(WhenNotice(refs > spec.maxSourceRefs, a + Decimal(spec.maxSourceRefs)),
                     WhenNotice(gaps > spec.maxItems, b + Decimal(spec.maxItems)));
  }

  lemma TakenVisible(texts: seq<string>, n: int)
    requires AllVisible(texts)
    ensures AllVisible(Take(texts, n))
  {
  }

  /** What the code hands to the ladder holds no blank reference or gap. */
  lemma UnfittedVisible(profileName: string, toolName: Option<string>, payload: Payload)
    ensures var u := Unfitted(profileName, toolName, payload); AllVisible(u.sourceRefs) && AllVisible(u.dataGaps)
  {
    var u := Unfitted(profileName, toolName, payload);
    var spec, refs, gaps := u.projection.spec, CleanRefs(payload.sourceRefs), CleanRefs(payload.dataGaps);
    CleanedAllVisible(payload.sourceRefs);
    CleanedAllVisible(payload.dataGaps);
    TakenVisible(refs, spec.maxSourceRefs);
    TakenVisible(gaps, spec.maxItems);
    OmissionsVisible(u.projection.droppedKeys, u.projection.droppedTopLevelKeys);
    TruncationsVisible(spec, |refs|, |gaps|);
    AllVisibleAppend(Take(gaps, spec.maxItems), OmissionGaps(u.projection.droppedKeys, u.projection.droppedTopLevelKeys));
    AllVisibleAppend(Take(gaps, spec.maxItems) + OmissionGaps(u.projection.droppedKeys, u.projection.droppedTopLevelKeys),
                     TruncationGaps(spec, |refs|, |gaps|));
  }

  // ----------------------------------------------------- the exact condition

  /** A rung's size while projected_chars holds 0, from what it keeps of the unfitted projection. */
  function RungChars(u: Projected, summary: seq<Field>, refs: seq<string>, gaps: seq<string>, refsTruncated: bool): nat {
    var p := u.projection;
    TextCost(u.name, Dumps) + BoolSize(u.available) + Size(Obj(summary), Dumps)
    + ListSize(refs) + ListSize(gaps) + ListSize(u.nonClaims) + ListSize(u.contextPackRefs) + ReceiptsSize(u)
    + TextCost(p.profileName, Dumps) + ToolSize(p.toolName) + SpecSize(p.spec)
    + ListSize(p.droppedKeys) + ListSize(p.droppedTopLevelKeys)
    + Digits(p.originalSourceRefCount) + Digits(p.originalChars) + BoolSize(refsTruncated) + 596
  }

  function CompactSize(u: Projected): nat {
    Filled(RungChars(u, BoundedSummary(u.summary, CompactLimits(u)), u.sourceRefs,
                     u.dataGaps + [CompactNotice(u.projection.spec)], u.projection.sourceRefsTruncated))
  }

  function FloorChars(u: Projected): nat {
    RungChars(u, ProjectionMarker(u), Take(u.sourceRefs, 1),
              u.dataGaps + [CompactNotice(u.projection.spec), MarkerNotice(u.projection.spec)],
              u.projection.sourceRefsTruncated || |u.sourceRefs| > 1)
  }

  /** Size of the last rung: the name, the marker, the first reference, all gaps with the two notices, the
      claims, receipts and dropped keys, digits and fixed text. */
  function ProjectionFloor(u: Projected): nat {
    Filled(FloorChars(u))
  }

  function Rung(u: Projected, summary: seq<Field>, refs: seq<string>, gaps: seq<string>, refsTruncated: bool): Projected {
    u.(summary := summary, sourceRefs := refs, dataGaps := gaps,
       projection := u.projection.(sourceRefsTruncated := refsTruncated, truncated := true))
  }

  lemma RungCharsExact(u: Projected, summary: seq<Field>, refs: seq<string>, gaps: seq<string>, refsTruncated: bool)
    ensures BlankSize(Rung(u, summary, refs, gaps, refsTruncated)) == RungChars(u, summary, refs, gaps, refsTruncated)
  {
    var q := Rung(u, summary, refs, gaps, refsTruncated);
    assert ReceiptsSize(q) == ReceiptsSize(u);
    assert ContentSize(q) == TextCost(u.name, Dumps) + BoolSize(u.available) + Size(Obj(summary), Dumps)
      + ListSize(refs) + ListSize(gaps) + ListSize(u.nonClaims) + ListSize(u.contextPackRefs) + ReceiptsSize(u);
  }

  lemma CompactIsRung(u: Projected)
    requires AllVisible(u.dataGaps)
    ensures CompactRung(u) ==
      Rung(u, BoundedSummary(u.summary, CompactLimits(u)), u.sourceRefs, u.dataGaps + [CompactNotice(u.projection.spec)],
           u.projection.sourceRefsTruncated)
  {
    VisibleKeepsAll(u.dataGaps);
  }

  lemma CompactNoticeVisible(spec: Spec)
    ensures Strip(CompactNotice(spec)) != ""
  {
    StripKeepsSome(CompactNotice(spec));
  }

  /** The marker rung of a projection with nothing blank. */
  lemma MarkerRungOf(c: Projected)
    requires AllVisible(c.dataGaps) && AllVisible(c.sourceRefs)
    ensures MarkerRung(c) ==
      Rung(c, CompactMarker(c.projection.spec.packName, c.summary), Take(c.sourceRefs, 1),
           c.dataGaps + [MarkerNotice(c.projection.spec)], c.projection.sourceRefsTruncated || |c.sourceRefs| > 1)
  {
    VisibleKeepsAll(c.dataGaps);
    VisibleKeepsAll(c.sourceRefs);
  }

  lemma GapsStayVisible(gaps: seq<string>, spec: Spec)
    requires AllVisible(gaps)
    ensures AllVisible(gaps + [CompactNotice(spec)])
  {
    CompactNoticeVisible(spec);
  }

  lemma MarkerIsRung(u: Projected)
    requires AllVisible(u.dataGaps) && AllVisible(u.sourceRefs)
    ensures MarkerRung(CompactRung(u)) ==
      Rung(u, ProjectionMarker(u), Take(u.sourceRefs, 1),
           u.dataGaps + [CompactNotice(u.projection.spec), MarkerNotice(u.projection.spec)],
           u.projection.sourceRefsTruncated || |u.sourceRefs| > 1)
  {
    var a, b := CompactNotice(u.projection.spec), MarkerNotice(u.projection.spec);
    CompactIsRung(u);
    GapsStayVisible(u.dataGaps, u.projection.spec);
    MarkerRungOf(CompactRung(u));
    assert u.dataGaps + [a] + [b] == u.dataGaps + [a, b];
  }

  lemma CompactFits(u: Projected)
    requires AllVisible(u.dataGaps)
    ensures FitsBudget(Measured(CompactRung(u))) <==> CompactSize(u) <= u.projection.spec.maxChars
  {
    CompactIsRung(u);
    RungCharsExact(u, BoundedSummary(u.summary, CompactLimits(u)), u.sourceRefs,
                  u.dataGaps + [CompactNotice(u.projection.spec)], u.projection.sourceRefsTruncated);
    RungFits(CompactRung(u));
  }

  lemma MarkerSizeExact(u: Projected)
    requires AllVisible(u.dataGaps) && AllVisible(u.sourceRefs)
    ensures ProjectedSize(Measured(MarkerRung(CompactRung(u)))) == ProjectionFloor(u)
  {
    MarkerIsRung(u);
    RungCharsExact(u, ProjectionMarker(u), Take(u.sourceRefs, 1),
                   u.dataGaps + [CompactNotice(u.projection.spec), MarkerNotice(u.projection.spec)],
                   u.projection.sourceRefsTruncated || |u.sourceRefs| > 1);
    MeasuredSizeExact(MarkerRung(CompactRung(u)));
  }

  lemma MarkerFits(u: Projected)
    requires AllVisible(u.dataGaps) && AllVisible(u.sourceRefs)
    ensures FitsBudget(Measured(MarkerRung(CompactRung(u)))) <==> ProjectionFloor(u) <= u.projection.spec.maxChars
  {
    MarkerSizeExact(u);
  }

  /** For every payload: its projection ends within its budget exactly when the unfitted projection, the
      compacted one or the marker form is small enough, each size in closed form. */
  lemma ProjectionWithinBudgetIff(profileName: string, toolName: Option<string>, payload: Payload)
    ensures var u := Unfitted(profileName, toolName, payload); var max := u.projection.spec.maxChars;
      FitsBudget(Project(profileName, toolName, payload)) <==>
        FilledSize(u) <= max || CompactSize(u) <= max || ProjectionFloor(u) <= max
  {
    var u := Unfitted(profileName, toolName, payload);
    UnfittedVisible(profileName, toolName, payload);
    FittedIff(u);
    RungFits(u);
    CompactFits(u);
    MarkerFits(u);
  }

  // ------------------------------------------------- projections too large

  lemma ContentCounts(p: Projected)
    ensures ProjectedSize(p) >= Size(Obj(p.summary), Dumps) && ProjectedSize(p) >= Size(Strings(p.nonClaims), Dumps)
  {
    var fields := ProjectedJson(p).fields;
    assert fields[2].value == Obj(p.summary) && fields[5].value == Strings(p.nonClaims);
    FieldCounts(fields, 2, Dumps);
    FieldCounts(fields, 5, Dumps);
  }

  lemma FitKeepsClaims(p: Projected)
    ensures FitProjected(p).nonClaims == p.nonClaims && FitProjected(p).projection.spec == p.projection.spec
  {
    FitProjectedIsARung(p);
  }

  lemma LongClaimDoesNotFit(p: Projected, claim: string)
    requires claim in p.nonClaims && |claim| > p.projection.spec.maxChars
    ensures !FitsBudget(p)
  {
    TextCounts(p.nonClaims, claim, Dumps);
    ContentCounts(p);
  }

  /** Not every projection does: claims are never shortened, so a payload with one longer than the budget
      ends over it on every rung. */
  lemma ProjectionCanExceed(profileName: string, toolName: Option<string>, payload: Payload, claim: string)
    requires claim in payload.nonClaims
    ensures var spec := SpecFor(ProfileFor(profileName).specs, if payload.name == "" then "unknown" else payload.name);
      |Strip(claim)| > spec.maxChars ==> !FitsBudget(Project(profileName, toolName, payload))
  {
    var p := Unfitted(profileName, toolName, payload);
    if |Strip(claim)| > p.projection.spec.maxChars {
      ClaimKept(profileName, toolName, payload, claim);
      FitKeepsClaims(p);
      LongClaimDoesNotFit(FitProjected(p), Strip(claim));
    }
  }

  lemma ClaimKept(profileName: string, toolName: Option<string>, payload: Payload, claim: string)
    requires claim in payload.nonClaims && Strip(claim) != ""
    ensures Strip(claim) in Unfitted(profileName, toolName, payload).nonClaims
  {
    CleanedAfter(PROJECTION_NON_CLAIMS, payload.nonClaims, claim);
  }

  lemma CleanedAfter(fixed: seq<string>, given: seq<string>, x: string)
    requires x in given && Strip(x) != ""
    ensures Strip(x) in CleanRefs(fixed + given)
  {
    var i :| 0 <= i < |given| && given[i] == x;
    assert (fixed + given)[|fixed| + i] == x;
    CleanRefsExact(fixed + given);
  }

  // ------------------------------------------------ omitted keys count twice

  /** Omitted keys are listed in the projection, and named again in a gap. */
  function ListedTwice(keys: seq<string>): nat {
    if keys == [] then 0 else ListSize(keys) + TextCost(Join(keys, ", "), Dumps)
  }

  function OmittedCost(p: Projection): nat {
    ListedTwice(p.droppedKeys) + ListedTwice(p.droppedTopLevelKeys)
  }

  lemma NoticeCounts(keys: seq<string>, head: string)
    ensures ItemsCost(TextItems(WhenNotice(keys != [], head + Join(keys, ", "))), Dumps) >=
      if keys == [] then 0 else TextCost(Join(keys, ", "), Dumps)
  {
    if keys != [] {
      TextCostAppend(head, Join(keys, ", "), Dumps);
      LastItemCost([], head + Join(keys, ", "), Dumps);
      assert [] + [head + Join(keys, ", ")] == WhenNotice(true, head + Join(keys, ", "));
    }
  }

  lemma OmissionGapsCount(dropped: seq<string>, extra: seq<string>)
    ensures ItemsCost(TextItems(OmissionGaps(dropped, extra)), Dumps) >=
      (if dropped == [] then 0 else TextCost(Join(dropped, ", "), Dumps))
      + (if extra == [] then 0 else TextCost(Join(extra, ", "), Dumps))
  {
    var h, k := "context projection omitted summary keys: ", "context projection omitted top-level keys: ";
    NoticeCounts(dropped, h);
    NoticeCounts(extra, k);
    TextItemsAppend(WhenNotice(dropped != [], h + Join(dropped, ", ")), WhenNotice(extra != [], k + Join(extra, ", ")));
  }

  lemma TextItemsAppend(a: seq<string>, b: seq<string>)
    ensures ItemsCost(TextItems(a + b), Dumps) == ItemsCost(TextItems(a), Dumps) + ItemsCost(TextItems(b), Dumps)
  {
    assert TextItems(a + b) == TextItems(a) + TextItems(b);
    ItemsCostAppend(TextItems(a), TextItems(b), Dumps);
  }

  /** A list costs at least any stretch of it. */
  lemma StretchCounts(before: seq<string>, stretch: seq<string>, after: seq<string>)
    ensures ListSize(before + stretch + after) >= ItemsCost(TextItems(stretch), Dumps)
  {
    TextItemsAppend(before, stretch);
    TextItemsAppend(before + stretch, after);
    var all := before + stretch + after;
    if all != [] {
      assert TextItems(all)[0] == Str(all[0]);
    }
  }

  /** The gaps a rung keeps hold those of the unfitted projection. */
  predicate KeepsOmissions(u: Projected, p: Projected) {
    && p.projection.spec == u.projection.spec
    && p.projection.droppedKeys == u.projection.droppedKeys
    && p.projection.droppedTopLevelKeys == u.projection.droppedTopLevelKeys
    && u.dataGaps <= p.dataGaps
  }

  lemma FitKeepsOmissions(u: Projected)
    requires AllVisible(u.dataGaps) && AllVisible(u.sourceRefs)
    ensures KeepsOmissions(u, FitProjected(u))
  {
    FitProjectedIsARung(u);
    CompactReached(u);
    MarkerReached(CompactRung(u));
    CompactIsRung(u);
    MarkerIsRung(u);
  }

  lemma ListAtLeastTwo(texts: seq<string>)
    ensures ListSize(texts) >= 2
  {
    if texts != [] {
      TextCounts(texts, texts[0], Dumps);
    }
  }

  lemma BlankCounts(p: Projected)
    ensures ProjectedSize(p) >= ListSize(p.dataGaps) + ListSize(p.projection.droppedKeys)
      + ListSize(p.projection.droppedTopLevelKeys)
  {
    ProjectedSizeExact(p);
  }

  lemma OmissionsCount(u: Projected, p: Projected, before: seq<string>, after: seq<string>)
    requires KeepsOmissions(u, p)
    requires u.dataGaps == before + OmissionGaps(u.projection.droppedKeys, u.projection.droppedTopLevelKeys) + after
    ensures ProjectedSize(p) >= OmittedCost(u.projection)
  {
    var stretch := OmissionGaps(u.projection.droppedKeys, u.projection.droppedTopLevelKeys);
    var rest := after + p.dataGaps[|u.dataGaps|..];
    assert p.dataGaps == before + stretch + rest;
    StretchCounts(before, stretch, rest);
    OmissionGapsCount(u.projection.droppedKeys, u.projection.droppedTopLevelKeys);
    ListAtLeastTwo(u.projection.droppedKeys);
    ListAtLeastTwo(u.projection.droppedTopLevelKeys);
    BlankCounts(p);
  }

  /** Keys left out are listed in full twice, and no rung shortens them: when that alone is over the
      budget, so is the projection. */
  lemma OmittedKeysCanExceed(profileName: string, toolName: Option<string>, payload: Payload)
    ensures var u := Unfitted(profileName, toolName, payload);
      OmittedCost(u.projection) > u.projection.spec.maxChars ==> !FitsBudget(Project(profileName, toolName, payload))
  {
    var u := Unfitted(profileName, toolName, payload);
    var spec, refs, gaps := u.projection.spec, CleanRefs(payload.sourceRefs), CleanRefs(payload.dataGaps);
    UnfittedVisible(profileName, toolName, payload);
    FitKeepsOmissions(u);
    OmissionsCount(u, FitProjected(u), Take(gaps, spec.maxItems), TruncationGaps(spec, |refs|, |gaps|));
  }

  lemma {:induction false} DroppedExact(all: seq<string>, kept: seq<string>)
    ensures forall key :: key in DroppedKeys(all, kept) <==> key in all && key !in kept
  {
    if all != [] {
      DroppedExact(all[1..], kept);
      assert all == [all[0]] + all[1..];
    }
  }

  lemma {:induction false} SelectedKeys(summary: seq<Field>, keys: seq<string>)
    ensures forall key :: key in Keys(Selected(summary, keys)) ==> key in keys
  {
    if keys != [] {
      SelectedKeys(summary, keys[1..]);
      var rest := Selected(summary, keys[1..]);
      var s := Selected(summary, keys);
      assert s == rest || s[1..] == rest;
      assert keys == [keys[0]] + keys[1..];
    }
  }

  lemma {:induction false} JoinHolds(parts: seq<string>, separator: string, x: string)
    requires x in parts
    ensures |Join(parts, separator)| >= |x|
  {
    if |parts| > 1 && parts[0] != x {
      assert parts == [parts[0]] + parts[1..];
      JoinHolds(parts[1..], separator, x);
    }
  }

  /** So one unselected summary key longer than half the budget is too much for every pack whose spec
      selects its keys. */
  lemma UnselectedKeyCanExceed(profileName: string, toolName: Option<string>, payload: Payload, key: string)
    requires key in Keys(payload.summary)
    ensures var spec := SpecFor(ProfileFor(profileName).specs, if payload.name == "" then "unknown" else payload.name);
      spec.summaryKeys != [] && key !in spec.summaryKeys && 2 * |key| > spec.maxChars ==>
        !FitsBudget(Project(profileName, toolName, payload))
  {
    var u := Unfitted(profileName, toolName, payload);
    var spec := u.projection.spec;
    if spec.summaryKeys != [] && key !in spec.summaryKeys {
      SelectedKeys(payload.summary, spec.summaryKeys);
      DroppedExact(Keys(payload.summary), Keys(Selected(payload.summary, spec.summaryKeys)));
      LongKeyListed(u.projection, key);
      OmittedKeysCanExceed(profileName, toolName, payload);
    }
  }

  lemma LongKeyListed(p: Projection, key: string)
    requires key in p.droppedKeys
    ensures OmittedCost(p) >= 2 * |key|
  {
    TextCounts(p.droppedKeys, key, Dumps);
    JoinHolds(p.droppedKeys, ", ", key);
    TextCostAtLeastLength(Join(p.droppedKeys, ", "), Dumps);
  }
}
