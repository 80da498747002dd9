/** The capital pack's place in the bundle (src/finharness/agent_context_projection.py). */
module CapitalBundle {
  import opened Common
  import opened StableSort
  import opened Json
  import opened Refs
  import opened ContextPack
  import opened ContextProjection
  import opened ContextBudget
  import opened ProjectionBudget
  import opened ProjectionBundle

  // ------------------------------------------------- the fixed part of a bundle

  lemma ClaimsAtMost()
    ensures Size(Strings(PROJECTION_NON_CLAIMS), Dumps) <= 2608
  {
    var c := PROJECTION_NON_CLAIMS;
    assert |c[0]| <= 80 && |c[1]| <= 80 && |c[2]| <= 28 && |c[3]| <= 28;
    FourTextsAtMost(c);
  }

  lemma FourTextsAtMost(c: seq<string>)
    requires |c| == 4 && |c[0]| <= 80 && |c[1]| <= 80 && |c[2]| <= 28 && |c[3]| <= 28
    ensures Size(Strings(c), Dumps) <= 2608
  {
    StringsSize(c);
    assert c == [] + [c[0]] + [c[1]] + [c[2]] + [c[3]];
    LastTextAtMost([], c[0]);
    LastTextAtMost([] + [c[0]], c[1]);
    LastTextAtMost([] + [c[0]] + [c[1]], c[2]);
    LastTextAtMost([] + [c[0]] + [c[1]] + [c[2]], c[3]);
  }

  lemma LastTextAtMost(init: seq<string>, last: string)
    ensures ItemsCost(TextItems(init + [last]), Dumps) <= ItemsCost(TextItems(init), Dumps) + 12 * |last| + 4
  {
    LastItemCost(init, last, Dumps);
    TextCostAtMostTwelve(last);
  }

  lemma HeaderAtMost(profile: Profile)
    requires |profile.name| <= 12 && profile.nonClaims == PROJECTION_NON_CLAIMS
    ensures FieldsCost(HeaderFields(profile, [], [], []), Dumps) <= 3949
  {
    var h := HeaderFields(profile, [], [], []);
    assert h[..8] == h;
    FieldsAtMost(h, 8);
    HeaderKeys(profile);
    HeaderValuesAtMost(profile);
  }

  lemma HeaderKeys(profile: Profile)
    ensures KeyLength(HeaderFields(profile, [], [], []), 8) == 92
  {
    EightSums(HeaderFields(profile, [], [], []));
  }

  lemma HeaderValues(profile: Profile)
    ensures var h := HeaderFields(profile, [], [], []);
      ValueSize(h, 8) == TextSize(BUNDLE_NAME, Dumps) + 9 + TextSize(profile.name, Dumps)
        + 3 * RefsSize([]) + Size(Strings(profile.nonClaims), Dumps)
  {
    EightSums(HeaderFields(profile, [], [], []));
  }

  lemma HeaderValuesAtMost(profile: Profile)
    requires |profile.name| <= 12 && profile.nonClaims == PROJECTION_NON_CLAIMS
    ensures ValueSize(HeaderFields(profile, [], [], []), 8) <= 2797
  {
    ClaimsAtMost();
    BundleNameSize();
    TextCostAtMostTwelve(profile.name);
    NoRefsSize();
    HeaderValues(profile);
  }

  lemma SummaryKeys(profile: Profile, count: nat)
    ensures KeyLength(SummaryFields(profile, count), 6) == 98
  {
    SixSums(SummaryFields(profile, count));
  }

  lemma SummaryValues(profile: Profile, count: nat)
    ensures ValueSize(SummaryFields(profile, count), 6) ==
      TextSize(profile.name, Dumps) + TextSize(BUNDLE_KIND, Dumps)
      + |Decimal(profile.totalMaxChars)| + |Decimal(count)| + 10
  {
    SixSums(SummaryFields(profile, count));
  }

  lemma SummaryAtMost(profile: Profile, count: nat)
    requires |profile.name| <= 12 && profile.totalMaxChars < 100_000
    ensures FieldsCost(SummaryFields(profile, count), Dumps) <= 1397 + |Decimal(count)|
  {
    var f := SummaryFields(profile, count);
    assert f[..6] == f;
    FieldsAtMost(f, 6);
    SummaryKeys(profile, count);
    SummaryValuesAtMost(profile, count);
  }

  lemma BundleKindSize()
    ensures TextSize(BUNDLE_KIND, Dumps) == 24
  {
    PlainTextCost("capital_context", Dumps);
    PlainTextCost("_bundle", Dumps);
    PrefixedSize("capital_context", "_bundle");
  }

  lemma BundleNameSize()
    ensures TextSize(BUNDLE_NAME, Dumps) == 28
  {
    PlainTextCost("capital_context", Dumps);
    PlainTextCost("_projection", Dumps);
    PrefixedSize("capital_context", "_projection");
  }

  lemma SummaryValuesAtMost(profile: Profile, count: nat)
    requires |profile.name| <= 12 && profile.totalMaxChars < 100_000
    ensures ValueSize(SummaryFields(profile, count), 6) <= 185 + |Decimal(count)|
  {
    SummaryValues(profile, count);
    BundleKindSize();
    TextCostAtMostTwelve(profile.name);
    DecimalLength(profile.totalMaxChars, 4) by {
      assert Power10(5) == 100_000;
    }
  }

  lemma BaseAtMost(profile: Profile, count: nat)
    requires |profile.name| <= 12 && profile.totalMaxChars < 100_000 && profile.nonClaims == PROJECTION_NON_CLAIMS
    ensures BaseSize(profile, count) <= 5760 + |Decimal(count)|
  {
    HeaderAtMost(profile);
    SummaryAtMost(profile, count);
    TextCostAtMostTwelve("packs");
    TextCostAtMostTwelve("projection");
    TextCostAtMostTwelve("truncated");
    TextCostAtMostTwelve("data_gaps");
  }

  // ------------------------------------------ a pack holds its own references

  lemma {:induction false} VisibleAreMembers(texts: seq<string>)
    ensures forall x :: x in Visible(texts) ==> x in texts
  {
    if texts != [] {
      VisibleAreMembers(texts[1..]);
    }
  }

  lemma VisibleRefsAtMost(texts: seq<string>)
    ensures RefsSize(Visible(texts)) <= Size(Strings(texts), Dumps)
  {
    VisibleAreMembers(texts);
    MoreRefsCostMore(Visible(texts), texts);
    CleaningNeverGrows(texts, Dumps);
  }

  function ReceiptTexts(p: Projected): seq<string> {
    p.receiptRefs + (if p.receiptRef.Some? then [p.receiptRef.value] else [])
  }

  lemma ReceiptsCount(p: Projected)
    ensures ListSize(ReceiptTexts(p)) <= ReceiptsSize(p) + 2
  {
    if p.receiptRef.Some? {
      GapsAdd(p.receiptRefs, [p.receiptRef.value]);
      OneTextSize(p.receiptRef.value, Dumps);
      StringsSize([p.receiptRef.value]);
    } else {
      assert ReceiptTexts(p) == p.receiptRefs;
    }
    OneTextSize("", Dumps);
  }

  /** The references a bundle copies out of a projected pack are no larger than the pack. */
  lemma RefsWithinPack(p: Projected)
    ensures var x := ItemOf(p);
      RefsSize(AllSourceRefs([x])) + RefsSize(AllReceiptRefs([x])) + RefsSize(AllContextPackRefs([x])) <= ProjectedSize(p)
  {
    var x := ItemOf(p);
    SingleRefs(x);
    VisibleRefsAtMost(p.sourceRefs);
    VisibleRefsAtMost(p.contextPackRefs);
    ReceiptRefsAtMost(p);
    ReceiptsCount(p);
    ProjectedSizeExact(p);
  }

  lemma ReceiptRefsAtMost(p: Projected)
    ensures var x := ItemOf(p); RefsSize(x.receiptRefs + x.receiptRef) <= Size(Strings(ReceiptTexts(p)), Dumps)
  {
    var x := ItemOf(p);
    VisibleAreMembers(p.receiptRefs);
    MoreRefsCostMore(x.receiptRefs + x.receiptRef, ReceiptTexts(p));
    CleaningNeverGrows(ReceiptTexts(p), Dumps);
  }

  lemma SingleRefs(x: Item)
    ensures AllSourceRefs([x]) == x.sourceRefs && AllContextPackRefs([x]) == x.contextPackRefs
    ensures AllReceiptRefs([x]) == x.receiptRefs + x.receiptRef
  {
    var packs := [x];
    assert seq(|packs|, i requires 0 <= i < |packs| => packs[i].sourceRefs) == [x.sourceRefs];
    assert seq(|packs|, i requires 0 <= i < |packs| => packs[i].contextPackRefs) == [x.contextPackRefs];
    assert seq(|packs|, i requires 0 <= i < |packs| => packs[i].receiptRefs) == [x.receiptRefs];
    assert seq(|packs|, i requires 0 <= i < |packs| => packs[i].receiptRef) == [x.receiptRef];
    SingleConcat(x.sourceRefs);
    SingleConcat(x.contextPackRefs);
    SingleConcat(x.receiptRefs);
    SingleConcat(x.receiptRef);
  }

  lemma SingleConcat(texts: seq<string>)
    ensures Concat([texts]) == texts
  {
    assert [texts][1..] == [];
  }

  /** A projected pack on its own costs at most twice its size and the fixed part. */
  lemma AloneAtMost(profile: Profile, count: nat, p: Projected)
    ensures BundleSize(profile, count, [ItemOf(p)], [], false) <= BaseSize(profile, count) + 2 * ProjectedSize(p) + 9
  {
    BundleSizeExact(profile, count, [ItemOf(p)], [], false);
    RefsWithinPack(p);
    OneJsonSize(ItemOf(p));
    OneTextSize("", Dumps);
  }

  // --------------------------------------------------------- first in line

  predicate LeastAt(packs: seq<Item>, c: nat) {
    c < |packs| && forall i :: 0 <= i < |packs| && i != c ==> packs[c].priority < packs[i].priority
  }

  /** The one pack of least priority comes first. */
  lemma LeastComesFirst(packs: seq<Item>, c: nat)
    requires LeastAt(packs, c)
    ensures SortByPriority(packs) != [] && SortByPriority(packs)[0] == packs[c]
  {
    var s := SortByPriority(packs);
    ProjectionBundle.SortIsStable(packs, 0);
    assert packs[c] in s && s[0] in packs;
    var i :| 0 <= i < |packs| && packs[i] == s[0];
    var k :| 0 <= k < |s| && s[k] == packs[c];
    assert s[0].priority <= s[k].priority;
  }

  /** A first pack is included exactly when it fits on its own, whatever follows. */
  lemma {:induction false} FirstIncludedIff(profile: Profile, count: nat, ordered: seq<Item>)
    requires ordered != [] && ordered[0] !in ordered[1..]
    ensures ordered[0] in PackAll(profile, count, [], ordered).included <==>
      BundleSize(profile, count, [ordered[0]], [], false) <= profile.totalMaxChars
  {
    var init, last := ordered[..|ordered| - 1], ordered[|ordered| - 1];
    var q, taken := LastTurn(profile, count, [], ordered);
    if init == [] {
      assert [] + [last] == [last];
    } else {
      assert init[0] == ordered[0] && last in ordered[1..];
      assert forall x :: x in init[1..] ==> x in ordered[1..];
      FirstIncludedIff(profile, count, init);
    }
  }

  lemma LeastIncludedIff(profile: Profile, count: nat, packs: seq<Item>, c: nat)
    requires LeastAt(packs, c)
    ensures packs[c] in PackAll(profile, count, [], SortByPriority(packs)).included <==>
      BundleSize(profile, count, [packs[c]], [], false) <= profile.totalMaxChars
  {
    LeastComesFirst(packs, c);
    LeastComesOnce(packs, c);
    FirstIncludedIff(profile, count, SortByPriority(packs));
  }

  lemma LeastComesOnce(packs: seq<Item>, c: nat)
    requires LeastAt(packs, c)
    ensures SortByPriority(packs) != [] && packs[c] !in SortByPriority(packs)[1..]
  {
    var s := SortByPriority(packs);
    LeastComesFirst(packs, c);
    SortOrders(packs, PriorityOf);
    OnceInMultiset(packs, c);
    assert s == [s[0]] + s[1..];
    assert multiset(s)[packs[c]] == 1 + multiset(s[1..])[packs[c]];
  }

  lemma OnceInMultiset(packs: seq<Item>, c: nat)
    requires LeastAt(packs, c)
    ensures multiset(packs)[packs[c]] == 1
  {
    assert packs == packs[..c] + [packs[c]] + packs[c + 1..];
    assert packs[c] !in packs[..c] && packs[c] !in packs[c + 1..];
  }

  // ----------------------------------------------------------- every profile

  predicate OthersComeLater(specs: seq<Spec>) {
    forall i :: 0 <= i < |specs| ==> specs[i].packName == CAPITAL_SUMMARY || specs[i].priority > 10
  }

  lemma {:induction false} LaterPriority(specs: seq<Spec>, name: string)
    requires OthersComeLater(specs) && name != CAPITAL_SUMMARY
    ensures SpecFor(specs, name).priority > 10
  {
    if specs != [] && specs[0].packName != name {
      assert forall i :: 0 <= i < |specs| - 1 ==> specs[1..][i] == specs[i + 1];
      LaterPriority(specs[1..], name);
    }
  }

  lemma CapitalComesFirst(profileName: string)
    ensures OthersComeLater(ProfileFor(profileName).specs)
    ensures SpecFor(ProfileFor(profileName).specs, CAPITAL_SUMMARY).priority == 10
  {
  }

  /** Every profile holds the capital pack twice over, with the fixed part of a bundle. */
  lemma ProfilesHaveRoom(profileName: string)
    ensures var profile := ProfileFor(profileName);
      && |profile.name| <= 12 && profile.totalMaxChars < 100_000 && profile.nonClaims == PROJECTION_NON_CLAIMS
      && 5869 + 2 * SpecFor(profile.specs, CAPITAL_SUMMARY).maxChars <= profile.totalMaxChars
  {
  }

  function Items(profileName: string, toolName: Option<string>, payloads: seq<Payload>): (r: seq<Item>)
    ensures |r| == |payloads|
  {
    Mapped(payloads, payload => ItemOf(Project(profileName, toolName, payload)))
  }

  lemma ProjectedSpec(profileName: string, toolName: Option<string>, payload: Payload)
    ensures Project(profileName, toolName, payload).projection.spec
      == SpecFor(ProfileFor(profileName).specs, if payload.name == "" then "unknown" else payload.name)
  {
    FitKeepsClaims(Unfitted(profileName, toolName, payload));
  }

  predicate PlacedBy(x: Item, payload: Payload) {
    if payload.name == CAPITAL_SUMMARY then x.priority == 10 else x.priority > 10
  }

  lemma CapitalPriority(profileName: string, toolName: Option<string>, payload: Payload)
    ensures PlacedBy(ItemOf(Project(profileName, toolName, payload)), payload)
  {
    ProjectedSpec(profileName, toolName, payload);
    CapitalComesFirst(profileName);
    if payload.name != CAPITAL_SUMMARY {
      LaterPriority(ProfileFor(profileName).specs, if payload.name == "" then "unknown" else payload.name);
    }
  }

  lemma AllPlaced(profileName: string, toolName: Option<string>, payloads: seq<Payload>, i: nat)
    requires i < |payloads|
    ensures PlacedBy(Items(profileName, toolName, payloads)[i], payloads[i])
  {
    CapitalPriority(profileName, toolName, payloads[i]);
  }

  predicate OnlyCapitalAt(payloads: seq<Payload>, c: nat) {
    c < |payloads| && forall i :: 0 <= i < |payloads| ==> (payloads[i].name == CAPITAL_SUMMARY <==> i == c)
  }

  lemma PlacedLeast(packs: seq<Item>, payloads: seq<Payload>, c: nat)
    requires OnlyCapitalAt(payloads, c) && |packs| == |payloads|
    requires forall i :: 0 <= i < |packs| ==> PlacedBy(packs[i], payloads[i])
    ensures LeastAt(packs, c)
  {
    assert PlacedBy(packs[c], payloads[c]);
  }

  lemma CapitalHasLeastPriority(profileName: string, toolName: Option<string>, payloads: seq<Payload>, c: nat)
    requires OnlyCapitalAt(payloads, c)
    ensures LeastAt(Items(profileName, toolName, payloads), c)
  {
    forall i | 0 <= i < |payloads| ensures PlacedBy(Items(profileName, toolName, payloads)[i], payloads[i]) {
      AllPlaced(profileName, toolName, payloads, i);
    }
    PlacedLeast(Items(profileName, toolName, payloads), payloads, c);
  }

  /** The projected packs that the bundle of these payloads holds. */
  function Bundled(profileName: string, toolName: Option<string>, payloads: seq<Payload>): seq<Item> {
    BundleOf(PackAll(ProfileFor(profileName), |payloads|, [],
                     SortByPriority(Items(profileName, toolName, payloads)))).packs
  }

  /** Under every profile, the one capital pack among the projected packs is in the bundle exactly when the
      bundle of it alone fits, whatever the other packs are. */
  lemma CapitalPackIncludedIff(profileName: string, toolName: Option<string>, payloads: seq<Payload>, c: nat)
    requires OnlyCapitalAt(payloads, c)
    ensures var p := Project(profileName, toolName, payloads[c]); var profile := ProfileFor(profileName);
      ItemOf(p) in Bundled(profileName, toolName, payloads) <==>
        BundleSize(profile, |payloads|, [ItemOf(p)], [], false) <= profile.totalMaxChars
  {
    var packs := Items(profileName, toolName, payloads);
    CapitalHasLeastPriority(profileName, toolName, payloads, c);
    LeastIncludedIff(ProfileFor(profileName), |payloads|, packs, c);
    assert packs[c] == ItemOf(Project(profileName, toolName, payloads[c]));
  }

  /** And that is so whenever it fits its own budget, with fewer than a million packs. */
  lemma CapitalPackFitsAlone(profileName: string, toolName: Option<string>, payload: Payload, count: nat)
    requires payload.name == CAPITAL_SUMMARY && count < 1_000_000
    ensures var p := Project(profileName, toolName, payload); var profile := ProfileFor(profileName);
      FitsBudget(p) ==> BundleSize(profile, count, [ItemOf(p)], [], false) <= profile.totalMaxChars
  {
    var p := Project(profileName, toolName, payload);
    ProjectedSpec(profileName, toolName, payload);
    ProfilesHaveRoom(profileName);
    BaseAtMost(ProfileFor(profileName), count);
    DecimalLength(count, 5) by {
      assert Power10(6) == 1_000_000;
    }
    AloneAtMost(ProfileFor(profileName), count, p);
  }

  /** So the projected capital pack, with every admission key of the summary handed to the builder, is in
      the finished bundle, through both ladders and the packing, whenever it fits its own budget. */
  lemma AdmissionKeysReachBundle(
    key: string, pack: Pack, profileName: string, toolName: Option<string>, payloads: seq<Payload>, c: nat)
    requires key in ADMISSION_KEYS && pack.name == CAPITAL_SUMMARY
    requires OnlyCapitalAt(payloads, c) && |payloads| < 1_000_000
    ensures var p := Project(profileName, toolName, payloads[c]);
      payloads[c] == PayloadOf(Build(pack, CAPITAL_SPEC)) && FitsBudget(p) ==>
        ItemOf(p) in Bundled(profileName, toolName, payloads) && Survives(key, pack.summary, p.summary)
  {
    AdmissionKeysSurvive(key, pack, profileName, toolName);
    CapitalPackIncludedIff(profileName, toolName, payloads, c);
    CapitalPackFitsAlone(profileName, toolName, payloads[c], |payloads|);
  }
}
