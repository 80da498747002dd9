/** Profile-budgeted projection of one context pack (src/finharness/agent_context_projection.py). */
module ContextProjection {
  import opened Common
  import opened Json
  import opened ContextBounding
  import opened Refs
  import opened ContextPack
  import StringOrder

  // -------------------------------------------------------------- policies

  datatype Spec = Spec(
    packName: string, priority: nat, maxChars: nat, maxItems: nat, maxSourceRefs: nat, summaryKeys: seq<string>)

  datatype Profile = Profile(name: string, totalMaxChars: nat, specs: seq<Spec>, nonClaims: seq<string>)

  const PROJECTION_NON_CLAIMS: seq<string> := [
    "Agent context projections are budgeted read models, not source-of-truth storage.",
    "Projection priority expands usable Agent context; it does not approve actions.",
    "Not execution authorization.",
    "Not investment advice."
  ]

  const DEFAULT_CAPITAL_KEYS: seq<string> := [
    "world_id", "basis_digest", "world_status", "selected_batch_ids", "trust", "capital_truth", "as_of_date",
    "base_currency", "asset_valuation_admitted", "net_worth_admitted", "per_currency_totals",
    "liability_per_currency_totals", "asset_valuation_blockers", "net_worth_blockers", "net_worth",
    "cash_runway_months", "monthly_net_cashflow", "holding_count", "top_holding", "top_holding_weight",
    "top5_weight", "concentration_flagged", "insurance_review_gaps", "tax_review_gaps"
  ]

  const REVIEW_CAPITAL_KEYS: seq<string> := DEFAULT_CAPITAL_KEYS + [
    "total_assets", "total_liabilities", "cash_total", "cash_total_verified", "interest_bearing_debt_total",
    "weighted_avg_interest_rate", "holdings", "upcoming_obligations"
  ]

  const CURRENT_IPS_KEYS: seq<string> := [
    "ips_id", "status", "base_currency", "created_at_utc", "receipt_ref", "thresholds",
    "allowed_asset_classes", "restricted_actions", "review_cadence"
  ]

  const IPS_CHECK_KEYS: seq<string> := ["ips_id", "as_of_date", "violations", "blocked", "results"]

  const OPEN_PROPOSALS_KEYS: seq<string> := ["open_count", "returned_count", "items", "trust"]

  const DEFAULT_PROFILE := Profile("default", 18_000, [
    Spec("capital_summary", 10, 6_000, 8, 10, DEFAULT_CAPITAL_KEYS),
    Spec("current_ips", 20, 4_000, 8, 8, CURRENT_IPS_KEYS),
    Spec("ips_check", 30, 5_000, 10, 8, IPS_CHECK_KEYS),
    Spec("open_proposals", 40, 5_000, 5, 8, OPEN_PROPOSALS_KEYS),
    Spec("proposal_timeline", 50, 6_000, 8, 8, []),
    Spec("planning_policy", 60, 4_000, 10, 8, [])
  ], PROJECTION_NON_CLAIMS)

  const REVIEW_PROFILE := Profile("review-draft", 28_000, [
    Spec("capital_summary", 10, 8_000, 12, 16, REVIEW_CAPITAL_KEYS),
    Spec("current_ips", 20, 5_000, 10, 12, CURRENT_IPS_KEYS),
    Spec("ips_check", 30, 7_000, 16, 12, IPS_CHECK_KEYS),
    Spec("open_proposals", 35, 9_000, 10, 16, OPEN_PROPOSALS_KEYS),
    Spec("proposal_timeline", 40, 10_000, 20, 16, []),
    Spec("planning_policy", 45, 5_000, 15, 12, [])
  ], PROJECTION_NON_CLAIMS)

  const SIMULATION_PROFILE := Profile("simulation", 24_000, [
    Spec("capital_summary", 10, 8_000, 12, 14, REVIEW_CAPITAL_KEYS),
    Spec("current_ips", 20, 5_000, 10, 10, CURRENT_IPS_KEYS),
    Spec("ips_check", 30, 7_000, 14, 10, IPS_CHECK_KEYS),
    Spec("open_proposals", 50, 5_000, 5, 8, OPEN_PROPOSALS_KEYS)
  ], PROJECTION_NON_CLAIMS)

  function ProfileFor(name: string): Profile {
    if name == "review-draft" then REVIEW_PROFILE
    else if name == "simulation" then SIMULATION_PROFILE
    else DEFAULT_PROFILE
  }

  function SpecFor(specs: seq<Spec>, packName: string): (r: Spec)
    ensures r.packName == packName
  {
    if specs == [] then Spec(packName, 100, 4_000, 6, 8, [])
    else if specs[0].packName == packName then specs[0]
    else SpecFor(specs[1..], packName)
  }

  // ------------------------------------------------------------ projection

  /** A pack as handed over; `json` is the whole payload, used only for its size. */
  datatype Payload = Payload(
    json: Json,
    name: string,
    available: bool,
    summary: seq<Field>,
    sourceRefs: seq<string>,
    dataGaps: seq<string>,
    receiptRefs: seq<string>,
    receiptRef: seq<string>,
    nonClaims: seq<string>,
    extraKeys: set<string>)

  function PayloadOf(p: Pack): Payload {
    Payload(PackJson(p), p.name, p.available, p.summary, p.sourceRefs, p.dataGaps, [], [], p.nonClaims, {})
  }

  datatype Projection = Projection(
    profileName: string,
    toolName: Option<string>,
    spec: Spec,
    droppedKeys: seq<string>,
    droppedTopLevelKeys: seq<string>,
    originalSourceRefCount: nat,
    sourceRefsTruncated: bool,
    originalChars: nat,
    projectedChars: nat,
    truncated: bool)

  datatype Projected = Projected(
    name: string,
    available: bool,
    summary: seq<Field>,
    sourceRefs: seq<string>,
    dataGaps: seq<string>,
    nonClaims: seq<string>,
    contextPackRefs: seq<string>,
    receiptRefs: seq<string>,
    receiptRef: Option<string>,
    projection: Projection)

  function Number(n: nat): Json {
    Num(Decimal(n))
  }

  function ContextPackRef(packName: string): string {
    "context_pack://" + packName
  }

  function OriginFields(p: Projection): seq<Field> {
    [
      Field("profile_name", Str(p.profileName)),
      Field("tool_name", if p.toolName.Some? then Str(p.toolName.value) else Null),
      Field("projection_kind", Str("context_pack")),
      Field("pack_name", Str(p.spec.packName)),
      Field("context_pack_ref", Str(ContextPackRef(p.spec.packName)))
    ]
  }

  function SpecFields(spec: Spec): seq<Field> {
    [
      Field("priority", Number(spec.priority)),
      Field("max_chars", Number(spec.maxChars)),
      Field("max_items", Number(spec.maxItems)),
      Field("max_source_refs", Number(spec.maxSourceRefs)),
      Field("summary_keys", Strings(spec.summaryKeys))
    ]
  }

  function OmissionFields(p: Projection): seq<Field> {
    [
      Field("dropped_summary_keys", Strings(p.droppedKeys)),
      Field("dropped_top_level_keys", Strings(p.droppedTopLevelKeys)),
      Field("original_source_ref_count", Number(p.originalSourceRefCount)),
      Field("source_refs_truncated", Bool(p.sourceRefsTruncated))
    ]
  }

  function StatusFields(p: Projection): seq<Field> {
    [
      Field("original_chars", Number(p.originalChars)),
      Field("truncated", Bool(p.truncated)),
      Field("execution_allowed", Bool(false)),
      Field("authority_transition", Bool(false))
    ]
  }

  /** Everything but projected_chars. */
  function ProjectionFields(p: Projection): seq<Field> {
    OriginFields(p) + SpecFields(p.spec) + OmissionFields(p) + StatusFields(p)
  }

  function ProjectionJson(p: Projection): Json {
    Obj(ProjectionFields(p) + [Field("projected_chars", Number(p.projectedChars))])
  }

  function LeadingFields(p: Projected): seq<Field> {
    [
      Field("name", Str(p.name)), Field("available", Bool(p.available)), Field("summary", Obj(p.summary)),
      Field("source_refs", Strings(p.sourceRefs))
    ]
  }

  function TrailingFields(p: Projected): seq<Field> {
    [
      Field("data_gaps", Strings(p.dataGaps)), Field("non_claims", Strings(p.nonClaims)),
      Field("execution_allowed", Bool(false)), Field("context_pack_refs", Strings(p.contextPackRefs))
    ]
  }

  function FixedFields(p: Projected): seq<Field> {
    LeadingFields(p) + TrailingFields(p)
  }

  function ReceiptFields(p: Projected): seq<Field> {
    (if p.receiptRefs != [] then [Field("receipt_refs", Strings(p.receiptRefs))] else [])
    + (if p.receiptRef.Some? then [Field("receipt_ref", Str(p.receiptRef.value))] else [])
  }

  function ContentFields(p: Projected): seq<Field> {
    FixedFields(p) + ReceiptFields(p)
  }

  function ProjectedJson(p: Projected): Json {
    Obj(ContentFields(p) + [Field("projection", ProjectionJson(p.projection))])
  }

  function ProjectedSize(p: Projected): nat {
    Size(ProjectedJson(p), Dumps)
  }

  /** projected_chars is the size measured while the field itself still holds 0. */
  function Measured(p: Projected): Projected {
    var blank := p.(projection := p.projection.(projectedChars := 0));
    p.(projection := p.projection.(projectedChars := ProjectedSize(blank)))
  }

  function CompactNotice(spec: Spec): string {
    "context projection compacted " + spec.packName + " to fit " + Decimal(spec.maxChars) + " chars"
  }

  function MarkerNotice(spec: Spec): string {
    "context projection replaced " + spec.packName + " summary with compact marker"
  }

  function CompactRung(p: Projected): Projected {
    var spec := p.projection.spec;
    p.(summary := BoundedSummary(p.summary, Limits(Max(1, spec.maxItems / 2), 240, false)),
       dataGaps := Visible(p.dataGaps)
         + [CompactNotice(spec)],
       projection := p.projection.(truncated := true))
  }

  function MarkerRung(p: Projected): Projected {
    var spec := p.projection.spec;
    var refs := Visible(p.sourceRefs);
    p.(summary := CompactMarker(spec.packName, p.summary),
       sourceRefs := Take(refs, 1),
       dataGaps := Visible(p.dataGaps)
         + [MarkerNotice(spec)],
       projection := p.projection.(
         truncated := true,
         sourceRefsTruncated := p.projection.sourceRefsTruncated || |refs| > 1))
  }

  predicate FitsBudget(p: Projected) {
    ProjectedSize(p) <= p.projection.spec.maxChars
  }

  /** _fit_pack_to_budget of the projection */
  function FitProjected(p: Projected): Projected {
    var out := Measured(p);
    if FitsBudget(out) then out
    else
      var compact := Measured(CompactRung(out));
      if FitsBudget(compact) then compact else Measured(MarkerRung(compact))
  }

  function SelectSummary(summary: seq<Field>, keys: seq<string>): seq<Field> {
    if keys == [] then summary else Selected(summary, keys)
  }

  function DroppedKeys(all: seq<string>, kept: seq<string>): seq<string> {
    if all == [] then [] else (if all[0] in kept then [] else [all[0]]) + DroppedKeys(all[1..], kept)
  }

  function WhenNotice(condition: bool, notice: string): seq<string> {
    if condition then [notice] else []
  }

  function OmissionGaps(dropped: seq<string>, extra: seq<string>): seq<string> {
    WhenNotice(dropped != [], "context projection omitted summary keys: " + Join(dropped, ", "))
    + WhenNotice(extra != [], "context projection omitted top-level keys: " + Join(extra, ", "))
  }

  function TruncationGaps(spec: Spec, refs: nat, gaps: nat): seq<string> {
    WhenNotice(refs > spec.maxSourceRefs, "context projection truncated source refs to " + Decimal(spec.maxSourceRefs))
    + WhenNotice(gaps > spec.maxItems, "context projection truncated data gaps to " + Decimal(spec.maxItems))
  }

  /** The projection before it is fitted to its budget. */
  function Unfitted(profileName: string, toolName: Option<string>, payload: Payload): Projected {
    var packName := if payload.name == "" then "unknown" else payload.name;
    var spec := SpecFor(ProfileFor(profileName).specs, packName);
    var selected := SelectSummary(payload.summary, spec.summaryKeys);
    var dropped := DroppedKeys(Keys(payload.summary), Keys(selected));
    var refs := CleanRefs(payload.sourceRefs);
    var gaps := CleanRefs(payload.dataGaps);
    var receipts := CleanRefs(payload.receiptRef);
    var extra := StringOrder.Sorted(payload.extraKeys);
    Projected(
      packName, payload.available,
      BoundedSummary(selected, Limits(spec.maxItems, 500, false)),
      Take(refs, spec.maxSourceRefs),
      Take(gaps, spec.maxItems) + OmissionGaps(dropped, extra) + TruncationGaps(spec, |refs|, |gaps|),
      CleanRefs(PROJECTION_NON_CLAIMS + payload.nonClaims),
      [ContextPackRef(packName)],
      CleanRefs(payload.receiptRefs),
      if receipts == [] then None else Some(receipts[0]),
      Projection(profileName, toolName, spec, dropped, extra, |refs|, |refs| > spec.maxSourceRefs,
                 Size(payload.json, Dumps), 0, false))
  }

  /** project_context_pack_payload */
  function Project(profileName: string, toolName: Option<string>, payload: Payload): Projected {
    FitProjected(Unfitted(profileName, toolName, payload))
  }

  // ------------------------------------------------------------- theorems

  /** The fitted pack is one of three rungs, each measured; only the last may exceed the budget. */
  lemma FitProjectedIsARung(p: Projected)
    ensures var out := FitProjected(p); var compact := Measured(CompactRung(Measured(p)));
      || (out == Measured(p) && FitsBudget(out))
      || (out == compact && FitsBudget(out))
      || out == Measured(MarkerRung(compact))
  {
  }

  function NameOf(payload: Payload): string {
    if payload.name == "" then "unknown" else payload.name
  }

  function SelectedValue(summary: seq<Field>, keys: seq<string>, l: Limits, key: string): Option<Json> {
    if keys == [] || key in keys then BoundedOption(Lookup(summary, key), l) else None
  }

  /** The ladder is given the selected keys and no others, each value bounded. */
  lemma UnfittedSummary(profileName: string, toolName: Option<string>, payload: Payload)
    ensures var u := Unfitted(profileName, toolName, payload); var spec := u.projection.spec;
      forall key :: Lookup(u.summary, key) == SelectedValue(payload.summary, spec.summaryKeys, Limits(spec.maxItems, 500, false), key)
  {
    var spec := Unfitted(profileName, toolName, payload).projection.spec;
    SelectedAndBounded(payload.summary, spec.summaryKeys, Limits(spec.maxItems, 500, false));
  }

  lemma SelectedAndBounded(summary: seq<Field>, keys: seq<string>, l: Limits)
    ensures forall key :: Lookup(BoundedSummary(SelectSummary(summary, keys), l), key) == SelectedValue(summary, keys, l, key)
  {
    SummaryKeepsKeys(SelectSummary(summary, keys), l);
    forall key ensures keys != [] ==> Lookup(Selected(summary, keys), key) == if key in keys then Lookup(summary, key) else None {
      LookupSelected(summary, keys, key);
    }
  }

  /** It is given the first references and gaps, each once, and a gap for every kind of thing left out. */
  lemma UnfittedLists(profileName: string, toolName: Option<string>, payload: Payload)
    ensures var u := Unfitted(profileName, toolName, payload); var spec := u.projection.spec;
      var refs := CleanRefs(payload.sourceRefs); var gaps := CleanRefs(payload.dataGaps);
      && u.sourceRefs <= refs && |u.sourceRefs| == Min(spec.maxSourceRefs, |refs|)
      && u.projection.sourceRefsTruncated == (|refs| > spec.maxSourceRefs) && u.projection.originalSourceRefCount == |refs|
      && u.dataGaps == gaps[..Min(spec.maxItems, |gaps|)]
           + OmissionGaps(u.projection.droppedKeys, u.projection.droppedTopLevelKeys)
           + TruncationGaps(spec, |refs|, |gaps|)
      && StringOrder.Ascending(u.projection.droppedTopLevelKeys)
      && (forall x :: x in u.projection.droppedTopLevelKeys <==> x in payload.extraKeys)
  {
  }

  /** The gaps say what was left out, each only when something was. */
  lemma GapTexts(dropped: seq<string>, extra: seq<string>, spec: Spec, refs: nat, gaps: nat)
    ensures OmissionGaps(dropped, extra) ==
      (if dropped != [] then ["context projection omitted summary keys: " + Join(dropped, ", ")] else [])
      + (if extra != [] then ["context projection omitted top-level keys: " + Join(extra, ", ")] else [])
    ensures TruncationGaps(spec, refs, gaps) ==
      (if refs > spec.maxSourceRefs
       then ["context projection truncated source refs to " + Decimal(spec.maxSourceRefs)] else [])
      + (if gaps > spec.maxItems then ["context projection truncated data gaps to " + Decimal(spec.maxItems)] else [])
  {
  }

  /** And the claims of every projection before the payload's own, its receipts, and its own reference. */
  lemma UnfittedRest(profileName: string, toolName: Option<string>, payload: Payload)
    ensures var u := Unfitted(profileName, toolName, payload); var name := NameOf(payload);
      && u.name == name && u.available == payload.available
      && u.projection.spec == SpecFor(ProfileFor(profileName).specs, name)
      && u.projection.profileName == profileName && u.projection.toolName == toolName && !u.projection.truncated
      && u.projection.originalChars == Size(payload.json, Dumps)
      && u.nonClaims == CleanRefs(PROJECTION_NON_CLAIMS + payload.nonClaims)
      && u.contextPackRefs == ["context_pack://" + name]
      && u.receiptRefs == CleanRefs(payload.receiptRefs)
      && u.receiptRef == (if CleanRefs(payload.receiptRef) == [] then None else Some(CleanRefs(payload.receiptRef)[0]))
  {
  }

  /** Each profile is found by its own name, and any other name gets the default. */
  lemma ProfilesByName(name: string)
    ensures ProfileFor("default").name == "default" && ProfileFor("review-draft").name == "review-draft"
    ensures ProfileFor("simulation").name == "simulation"
    ensures name !in {"review-draft", "simulation"} ==> ProfileFor(name) == DEFAULT_PROFILE
  {
  }

  predicate FirstNamed(specs: seq<Spec>, i: int, name: string) {
    0 <= i < |specs| && specs[i].packName == name && forall j :: 0 <= j < i ==> specs[j].packName != name
  }

  predicate Unnamed(specs: seq<Spec>, name: string) {
    forall i :: 0 <= i < |specs| ==> specs[i].packName != name
  }

  /** A pack's spec is the first the profile lists for its name; any other pack gets the default. */
  lemma {:induction false} SpecForListed(specs: seq<Spec>, i: int, name: string)
    requires FirstNamed(specs, i, name)
    ensures SpecFor(specs, name) == specs[i]
  {
    if i > 0 {
      var rest := specs[1..];
      assert forall j :: 0 <= j < |rest| ==> rest[j] == specs[j + 1];
      assert specs[0].packName != name;
      SpecForListed(rest, i - 1, name);
    }
  }

  lemma {:induction false} SpecForUnlisted(specs: seq<Spec>, name: string)
    requires Unnamed(specs, name)
    ensures SpecFor(specs, name) == Spec(name, 100, 4_000, 6, 8, [])
  {
    if specs != [] {
      var rest := specs[1..];
      assert forall j :: 0 <= j < |rest| ==> rest[j] == specs[j + 1];
      SpecForUnlisted(rest, name);
    }
  }

  /** Each rung is taken only when the one before is too large: a projection that fits is only measured; one
      that fits with its summary bounded to half the items and 240 characters keeps every key in order and
      its references; the marker keeps the first reference. Name, claims, receipts and what was dropped
      stay on every rung. */
  lemma ProjectionLadderIsMinimal(p: Projected)
    ensures var out := FitProjected(p); var spec := p.projection.spec;
      var compact := Measured(CompactRung(Measured(p)));
      && out.name == p.name && out.available == p.available && out.nonClaims == p.nonClaims
      && out.contextPackRefs == p.contextPackRefs && out.receiptRefs == p.receiptRefs && out.receiptRef == p.receiptRef
      && out.projection.spec == spec && out.projection.droppedKeys == p.projection.droppedKeys
      && out.projection.droppedTopLevelKeys == p.projection.droppedTopLevelKeys
      && (FitsBudget(Measured(p)) ==>
            out.summary == p.summary && out.sourceRefs == p.sourceRefs && out.dataGaps == p.dataGaps
            && out.projection.truncated == p.projection.truncated)
      && (!FitsBudget(Measured(p)) && FitsBudget(compact) ==>
            && out.summary == BoundedSummary(p.summary, Limits(Max(1, spec.maxItems / 2), 240, false))
            && Keys(out.summary) == Keys(p.summary) && out.sourceRefs == p.sourceRefs
            && out.dataGaps == Visible(p.dataGaps) + [CompactNotice(spec)] && out.projection.truncated)
      && (!FitsBudget(Measured(p)) && !FitsBudget(compact) ==>
            && out.summary == CompactMarker(spec.packName, compact.summary)
            && out.sourceRefs == Take(Visible(p.sourceRefs), 1)
            && out.dataGaps == Visible(compact.dataGaps) + [MarkerNotice(spec)] && out.projection.truncated)
  {
    SummaryKeepsKeys(p.summary, Limits(Max(1, p.projection.spec.maxItems / 2), 240, false));
  }

  /** A projection compacted to fit says so: its truncated flag is set, and a last gap names the pack. */
  lemma ProjectionCompactionIsAnnounced(p: Projected)
    requires !p.projection.truncated
    ensures var out := FitProjected(p);
      && (!out.projection.truncated ==> out == Measured(p))
      && (out.projection.truncated ==>
            && out.dataGaps != []
            && var pack, chars := p.projection.spec.packName, Decimal(p.projection.spec.maxChars);
               out.dataGaps[|out.dataGaps| - 1] in {
                 "context projection compacted " + pack + " to fit " + chars + " chars",
                 "context projection replaced " + pack + " summary with compact marker"
               })
  {
    FitProjectedIsARung(p);
  }

  lemma CompactSurvives(key: string, p: Projected)
    ensures Survives(key, p.summary, CompactRung(p).summary)
  {
    BoundingSurvives(key, p.summary, Limits(Max(1, p.projection.spec.maxItems / 2), 240, false));
  }

  lemma RungsKeepSummaries(key: string, p: Projected)
    requires key in ADMISSION_KEYS && p.projection.spec.packName == CAPITAL_SUMMARY
    ensures Survives(key, p.summary, FitProjected(p).summary)
  {
    var compact := CompactRung(Measured(p));
    FitProjectedIsARung(p);
    CompactSurvives(key, Measured(p));
    MarkerSurvives(key, compact.summary);
    SurvivesTwice(key, p.summary, compact.summary, CompactMarker(CAPITAL_SUMMARY, compact.summary));
  }

  lemma ReviewKeysExtendDefault(key: string)
    requires key in DEFAULT_CAPITAL_KEYS
    ensures key in REVIEW_CAPITAL_KEYS
  {
  }

  /** Every admission key is among the keys each profile selects for the capital summary. */
  lemma AdmissionKeysSelected(key: string)
    requires key in ADMISSION_KEYS
    ensures key in DEFAULT_CAPITAL_KEYS
  {
    var i :| 0 <= i < |ADMISSION_KEYS| && ADMISSION_KEYS[i] == key;
    var j := if i < 6 then i else if i < 12 then i + 2 else 21;
    assert DEFAULT_CAPITAL_KEYS[j] == key;
  }

  lemma CapitalSpecSelects(profileName: string, key: string)
    requires key in ADMISSION_KEYS
    ensures key in SpecFor(ProfileFor(profileName).specs, CAPITAL_SUMMARY).summaryKeys
  {
    AdmissionKeysSelected(key);
    ReviewKeysExtendDefault(key);
  }

  /** Projecting a capital summary keeps every admission key, on every rung and under every profile. */
  lemma ProjectionSurvives(key: string, profileName: string, toolName: Option<string>, payload: Payload)
    requires key in ADMISSION_KEYS && payload.name == CAPITAL_SUMMARY
    ensures Survives(key, payload.summary, Project(profileName, toolName, payload).summary)
  {
    var spec := SpecFor(ProfileFor(profileName).specs, CAPITAL_SUMMARY);
    var selected := SelectSummary(payload.summary, spec.summaryKeys);
    var bounded := BoundedSummary(selected, Limits(spec.maxItems, 500, false));
    CapitalSpecSelects(profileName, key);
    LookupSelected(payload.summary, spec.summaryKeys, key);
    BoundingSurvives(key, selected, Limits(spec.maxItems, 500, false));
    SurvivesTwice(key, payload.summary, selected, bounded);
    var p := Unfitted(profileName, toolName, payload);
    RungsKeepSummaries(key, p);
    SurvivesTwice(key, payload.summary, bounded, FitProjected(p).summary);
  }

  /** Through both ladders, whichever rungs are taken and under every profile: each capital-admission
      key of the summary handed to the builder is still in the projected pack, with booleans, numbers,
      nulls and strings of at most 240 characters unchanged. */
  lemma AdmissionKeysSurvive(key: string, p: Pack, profileName: string, toolName: Option<string>)
    requires key in ADMISSION_KEYS && p.name == CAPITAL_SUMMARY
    ensures Survives(key, p.summary, Project(profileName, toolName, PayloadOf(Build(p, CAPITAL_SPEC))).summary)
  {
    var built := Build(p, CAPITAL_SPEC);
    BuildSurvives(key, p, CAPITAL_SPEC);
    ProjectionSurvives(key, profileName, toolName, PayloadOf(built));
    SurvivesTwice(key, p.summary, built.summary, Project(profileName, toolName, PayloadOf(built)).summary);
  }

  /** The reported size understates the real one by exactly the digits it adds beyond the first. */
  lemma ReportedSizeExact(p: Projected)
    ensures var out := FitProjected(p);
      ProjectedSize(out) == out.projection.projectedChars + |Decimal(out.projection.projectedChars)| - 1
  {
    FitProjectedIsARung(p);
    MeasuredSize(p);
    var compact := CompactRung(Measured(p));
    MeasuredSize(compact);
    MeasuredSize(MarkerRung(Measured(compact)));
  }

  lemma MeasuredSize(p: Projected)
    ensures var out := Measured(p);
      ProjectedSize(out) == out.projection.projectedChars + |Decimal(out.projection.projectedChars)| - 1
  {
    var out := Measured(p);
    var blank := p.(projection := p.projection.(projectedChars := 0));
    SizeSplits(out);
    SizeSplits(blank);
    assert ContentFields(out) == ContentFields(blank);
    assert ProjectionFields(out.projection) == ProjectionFields(blank.projection);
  }

  lemma SizeSplits(p: Projected)
    ensures ProjectedSize(p) ==
      FieldsCost(ContentFields(p), Dumps) + FieldsCost(ProjectionFields(p.projection), Dumps)
      + TextSize("projection", Dumps) + TextSize("projected_chars", Dumps)
      + |Decimal(p.projection.projectedChars)| + 8
  {
    var tail := [Field("projected_chars", Number(p.projection.projectedChars))];
    LastFieldSize(ProjectionFields(p.projection), tail[0], Dumps);
    LastFieldSize(ContentFields(p), Field("projection", ProjectionJson(p.projection)), Dumps);
  }

  lemma LastFieldSize(init: seq<Field>, last: Field, style: Style)
    ensures Size(Obj(init + [last]), style) == FieldsCost(init, style) + FieldSize(last, style) + 2
  {
    FieldsCostAppend(init, [last], style);
    assert FieldsCost([last], style) == FieldSize(last, style) + SeparatorSize(style);
  }
}
