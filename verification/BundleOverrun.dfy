/** Projected packs whose bundle is over its budget (src/finharness/agent_context_projection.py). */
module BundleOverrun {
  import opened Common
  import opened StableSort
  import opened Json
  import opened ContextBounding
  import opened Refs
  import opened ContextPack
  import opened ContextProjection
  import opened ContextBudget
  import opened ProjectionBudget
  import opened ProjectionBundle
  import opened CapitalBundle

  /** The tool name the bundle's builder passes to every projection. */
  const BUNDLE_TOOL := "get_capital_context_projection"

  // ---------------------------------------------------- two nearly full packs

  lemma SecondAdds(profile: Profile, count: nat, a: Item, b: Item)
    ensures BundleSize(profile, count, [a, b], [], false) >= BundleSize(profile, count, [a], [], false) + Size(b.json, Dumps) + 2
  {
    var one, two := [a], [b];
    assert one + two == [a, b];
    BundleSizeExact(profile, count, one, [], false);
    BundleSizeExact(profile, count, one + two, [], false);
    MoreSources(one, two);
    MoreReceipts(one, two);
    MoreRefsCostMore(AllSourceRefs(one), AllSourceRefs(one + two));
    MoreRefsCostMore(AllContextPackRefs(one), AllContextPackRefs(one + two));
    MoreRefsCostMore(AllReceiptRefs(one), AllReceiptRefs(one + two));
    OneJsonSize(a);
    TwoJsonSize(a, b);
  }

  lemma NoticeIsLong(profile: Profile, pack: Item)
    ensures TextSize(OmissionNotice(profile, pack), Dumps) >= 10
  {
    TextCostAtLeastLength(OmissionNotice(profile, pack), Dumps);
  }

  /** A first pack that leaves less than four characters, and any second one. */
  lemma NearlyFullExceeds(profile: Profile, count: nat, a: Item, b: Item)
    requires a.priority <= b.priority && Describes(b)
    ensures profile.totalMaxChars - 4 < BundleSize(profile, count, [a], [], false) <= profile.totalMaxChars ==>
      Exceeds(profile, count, [a, b])
  {
    if profile.totalMaxChars - 4 < BundleSize(profile, count, [a], [], false) <= profile.totalMaxChars {
      DescribedSize(b);
      SecondAdds(profile, count, a, b);
      SecondPackOmitted(profile, count, a, b);
      NoticeIsLong(profile, b);
      OneGapFinished(profile, count, [a], OmissionNotice(profile, b)) by {
        NoticeIsTrimmed(profile, b);
      }
    }
  }

  // ---------------------------------------------------- a pack of any size

  function Fill(n: nat): (s: string)
    ensures |s| == n && forall i :: 0 <= i < n ==> s[i] == 'a'
  {
    seq(n, _ => 'a')
  }

  /** A pack that is a name and one claim. */
  function Claiming(name: string, claim: string): Payload {
    Payload(Obj([Field("name", Str(name)), Field("non_claims", Strings([claim]))]),
            name, true, [], [], [], [], [], [claim], {})
  }

  function ClaimSpec(name: string): Spec {
    Spec(name, 100, 4_000, 6, 8, [])
  }

  predicate AtMostLong(texts: seq<string>, n: nat) {
    forall i :: 0 <= i < |texts| ==> |texts[i]| <= n
  }

  lemma FixedClaimsShort()
    ensures AtMostLong(PROJECTION_NON_CLAIMS, 80)
  {
  }

  lemma DedupeLast(values: seq<string>, x: string)
    requires x != "" && x !in values
    ensures Dedupe(values + [x]) == Dedupe(values) + [x]
  {
    assert (values + [x])[..|values|] == values;
    DedupeMembers(values);
  }

  lemma StrippedSnoc(texts: seq<string>, x: string, y: string)
    requires Strip(x) == y
    ensures Stripped(texts + [x]) == Stripped(texts) + [y]
  {
    var all := texts + [x];
    forall i | 0 <= i < |all| ensures Stripped(all)[i] == (Stripped(texts) + [y])[i] {
      assert all[i] == if i < |texts| then texts[i] else x;
    }
  }

  lemma StrippedShort(texts: seq<string>, y: string, n: nat)
    requires AtMostLong(texts, n) && |y| > n
    ensures y !in Stripped(texts)
  {
    assert forall i :: 0 <= i < |texts| ==> |Stripped(texts)[i]| <= |texts[i]|;
  }

  lemma CleanedLast(texts: seq<string>, x: string, y: string)
    requires Strip(x) == y && |y| > 80 && AtMostLong(texts, 80)
    ensures CleanRefs(texts + [x]) == CleanRefs(texts) + [y]
  {
    StrippedShort(texts, y, 80);
    StrippedSnoc(texts, x, y);
    var values := Stripped(texts);
    DedupeLast(values, y);
  }

  lemma FillTrimmed(n: nat)
    requires n > 0
    ensures Strip(Fill(n)) == Fill(n)
  {
    StripOfTrimmed(Fill(n));
  }

  /** One long claim after shorter ones costs its length, in the list. */
  lemma LongClaimCost(texts: seq<string>, claim: string)
    requires Strip(claim) == claim && |claim| > 80 && AtMostLong(texts, 80) && TextCost(claim, Dumps) == |claim|
    ensures ListSize(CleanRefs(texts + [claim])) == ItemsCost(TextItems(CleanRefs(texts)), Dumps) + |claim| + 4
  {
    CleanedLast(texts, claim, claim);
    LastItemCost(CleanRefs(texts), claim, Dumps);
    StringsSize(CleanRefs(texts) + [claim]);
  }

  lemma FillCost(n: nat)
    ensures TextCost(Fill(n), Dumps) == n
  {
    PlainTextCost(Fill(n), Dumps);
  }

  /** What the payload's own JSON measures, apart from the claim. */
  function ClaimJsonBase(name: string): nat {
    TextCost("name", Dumps) + TextCost("non_claims", Dumps) + TextCost(name, Dumps) + 18
  }

  lemma TwoFieldsSize(a: Field, b: Field)
    ensures Size(Obj([a, b]), Dumps) == FieldSize(a, Dumps) + FieldSize(b, Dumps) + 4
  {
    OneFieldCost(a, Dumps);
    LastFieldCost([a], b, Dumps);
    assert [a] + [b] == [a, b];
  }

  lemma ClaimJsonSize(name: string, claim: string)
    requires TextCost(claim, Dumps) == |claim|
    ensures Size(Claiming(name, claim).json, Dumps) == ClaimJsonBase(name) + |claim|
  {
    var json := Claiming(name, claim).json;
    TwoFieldsSize(json.fields[0], json.fields[1]);
    OneTextSize(claim, Dumps);
  }

  // ------------------------------------------------------- its projection

  /** What the ladder is given: nothing but a name, claims and the size measured. */
  function Shape(profileName: string, toolName: Option<string>, name: string, claims: seq<string>, chars: nat): Projected {
    Projected(name, true, [], [], [], claims, [ContextPackRef(name)], [], None,
              Projection(profileName, toolName, ClaimSpec(name), [], [], 0, false, chars, 0, false))
  }

  lemma NothingCleaned()
    ensures CleanRefs([]) == []
  {
  }

  lemma Shaped(profileName: string, toolName: Option<string>, name: string, claim: string)
    requires name != "" && SpecFor(ProfileFor(profileName).specs, name) == ClaimSpec(name)
    requires TextCost(claim, Dumps) == |claim|
    ensures Unfitted(profileName, toolName, Claiming(name, claim)) ==
      Shape(profileName, toolName, name, CleanRefs(PROJECTION_NON_CLAIMS + [claim]), ClaimJsonBase(name) + |claim|)
  {
    NothingCleaned();
    ClaimJsonSize(name, claim);
  }

  /** Only the claims and the digits of the measured size tell two shapes apart. */
  lemma ShapesDiffer(
    profileName: string, toolName: Option<string>, name: string, a: seq<string>, m: nat, b: seq<string>, n: nat)
    ensures FloorChars(Shape(profileName, toolName, name, b, n)) ==
      FloorChars(Shape(profileName, toolName, name, a, m)) - ListSize(a) - Digits(m) + ListSize(b) + Digits(n)
  {
    var u, v := Shape(profileName, toolName, name, a, m), Shape(profileName, toolName, name, b, n);
    assert ProjectionMarker(u) == ProjectionMarker(v) && ReceiptsSize(u) == ReceiptsSize(v);
  }

  lemma ShapeReached(u: Projected, claim: string)
    requires claim in u.nonClaims && |claim| > u.projection.spec.maxChars
    requires u.sourceRefs == [] && u.dataGaps == []
    ensures FitProjected(u) == Measured(MarkerRung(CompactRung(u)))
    ensures ProjectedSize(FitProjected(u)) == ProjectionFloor(u)
  {
    CompactReached(u);
    MarkerReached(CompactRung(u));
    LongClaimDoesNotFit(Measured(u), claim);
    LongClaimDoesNotFit(Measured(CompactRung(u)), claim);
    MarkerSizeExact(u);
  }

  // --------------------------------------------- one more character, one step

  lemma {:induction false} DigitsStep(m: nat)
    ensures Digits(m) <= Digits(m + 1) <= Digits(m) + 1
  {
    if m >= 10 {
      DigitsStep(m / 10);
      assert (m + 1) / 10 == m / 10 || (m + 1) / 10 == m / 10 + 1;
    }
  }

  lemma FilledStep(m: nat, n: nat)
    requires m + 1 <= n <= m + 2
    ensures Filled(m) + 1 <= Filled(n) <= Filled(m) + 3
  {
    DigitsStep(m);
    DigitsStep(m + 1);
    TwoDigitsStep(m);
  }

  lemma {:induction false} TwoDigitsStep(m: nat)
    ensures Digits(m + 2) <= Digits(m) + 1
  {
    if m >= 10 {
      DigitsStep(m / 10);
      assert (m + 2) / 10 == m / 10 || (m + 2) / 10 == m / 10 + 1;
    } else {
      DecimalLength(m + 2, 1) by {
        assert Power10(2) == 100;
      }
    }
  }

  /** A pack known by its name, the claims it always carries, and how it is projected. */
  datatype Frame = Frame(profileName: string, toolName: Option<string>, name: string, fixed: seq<string>)

  function ClaimsWith(f: Frame, n: nat): seq<string> {
    CleanRefs(f.fixed + [Fill(n)])
  }

  function ShapeOf(f: Frame, n: nat): Projected {
    Shape(f.profileName, f.toolName, f.name, ClaimsWith(f, n), ClaimJsonBase(f.name) + n)
  }

  function FloorOfFill(f: Frame, n: nat): nat {
    ProjectionFloor(ShapeOf(f, n))
  }

  lemma ClaimsCost(f: Frame, n: nat)
    requires n > 80 && AtMostLong(f.fixed, 80)
    ensures ListSize(ClaimsWith(f, n)) == ItemsCost(TextItems(CleanRefs(f.fixed)), Dumps) + n + 4
  {
    var claim := Fill(n);
    LongClaimCost(f.fixed, claim) by {
      FillTrimmed(n);
      FillCost(n);
    }
  }

  lemma CharsStep(f: Frame, n: nat)
    requires n > 80 && AtMostLong(f.fixed, 80)
    ensures FloorChars(ShapeOf(f, n)) + 1 <= FloorChars(ShapeOf(f, n + 1)) <= FloorChars(ShapeOf(f, n)) + 2
  {
    ClaimsCost(f, n);
    ClaimsCost(f, n + 1);
    DigitsStep(ClaimJsonBase(f.name) + n);
    ShapesDiffer(f.profileName, f.toolName, f.name, ClaimsWith(f, n), ClaimJsonBase(f.name) + n,
                 ClaimsWith(f, n + 1), ClaimJsonBase(f.name) + n + 1);
  }

  lemma FloorStep(f: Frame, n: nat)
    requires n > 80 && AtMostLong(f.fixed, 80)
    ensures FloorOfFill(f, n) + 1 <= FloorOfFill(f, n + 1) <= FloorOfFill(f, n) + 3
  {
    CharsStep(f, n);
    FilledStep(FloorChars(ShapeOf(f, n)), FloorChars(ShapeOf(f, n + 1)));
  }

  /** Growing one character at a time, the size reaches every limit to within two. */
  lemma Crossing(f: Frame, n: nat, limit: nat) returns (d: nat)
    requires n > 80 && AtMostLong(f.fixed, 80) && FloorOfFill(f, n) <= limit
    ensures d >= n && limit - 3 < FloorOfFill(f, d) <= limit
    decreases limit - FloorOfFill(f, n)
  {
    FloorStep(f, n);
    if FloorOfFill(f, n + 1) <= limit {
      d := Crossing(f, n + 1, limit);
    } else {
      d := n;
    }
  }

  // ------------------------------------------------------ room to start from

  lemma MarkSizeAtMost()
    ensures Size(Obj(MARK), Dumps) <= 120
  {
    OneFieldCost(MARK[0], Dumps);
    TextCostAtMostTwelve(MARK[0].key);
  }

  lemma NoticesAtMost(spec: Spec)
    requires |spec.packName| <= 5 && spec.maxChars < 10_000
    ensures ListSize([CompactNotice(spec), MarkerNotice(spec)]) <= 1364
  {
    var a, b := CompactNotice(spec), MarkerNotice(spec);
    DecimalLength(spec.maxChars, 3) by {
      assert Power10(4) == 10_000;
    }
    TextCostAtMostTwelve(a);
    TextCostAtMostTwelve(b);
    TwoTextsSize(a, b, Dumps);
    assert |a| <= 52 && |b| <= 61;
  }

  lemma RefAtMost(name: string)
    requires |name| <= 5
    ensures ListSize([ContextPackRef(name)]) <= 79
  {
    OneTextSize(ContextPackRef(name), Dumps);
    RefTextSize(name);
    TextCostAtMostTwelve(name);
  }

  lemma ClaimSpecAtMost(name: string)
    requires |name| <= 5
    ensures SpecSize(ClaimSpec(name)) <= 131
  {
    TextCostAtMostTwelve(name);
    OneTextSize("", Dumps);
    DecimalLength(100, 2) by {
      assert Power10(3) == 1000;
    }
    DecimalLength(4000, 3) by {
      assert Power10(4) == 10_000;
    }
  }

  lemma FrameTexts(profileName: string, tool: string, name: string)
    requires |profileName| <= 12 && |tool| <= 30 && |name| <= 5
    ensures TextCost(profileName, Dumps) <= 144 && ToolSize(Some(tool)) <= 362 && TextCost(name, Dumps) <= 60
  {
    TextCostAtMostTwelve(profileName);
    TextCostAtMostTwelve(tool);
    TextCostAtMostTwelve(name);
  }

  lemma ShapeAtMost(profileName: string, tool: string, name: string, claims: seq<string>, chars: nat)
    requires |profileName| <= 12 && |tool| <= 30 && |name| <= 5
    ensures FloorChars(Shape(profileName, Some(tool), name, claims, chars)) <= 2872 + ListSize(claims) + Digits(chars)
  {
    var u := Shape(profileName, Some(tool), name, claims, chars);
    assert name != CAPITAL_SUMMARY;
    assert ProjectionMarker(u) == MARK;
    assert u.dataGaps + [CompactNotice(ClaimSpec(name)), MarkerNotice(ClaimSpec(name))]
      == [CompactNotice(ClaimSpec(name)), MarkerNotice(ClaimSpec(name))];
    MarkSizeAtMost();
    NoticesAtMost(ClaimSpec(name));
    RefAtMost(name);
    ClaimSpecAtMost(name);
    FrameTexts(profileName, tool, name);
    OneTextSize("", Dumps);
  }

  // ------------------------------------------------------------ the overrun

  function AloneBase(profile: Profile, count: nat, ref: string): int {
    BaseSize(profile, count) + RefsSize(Visible([ref])) + 13
  }

  lemma AloneExact(profile: Profile, count: nat, p: Projected, ref: string)
    requires p.sourceRefs == [] && p.receiptRefs == [] && p.receiptRef == None && p.contextPackRefs == [ref]
    ensures BundleSize(profile, count, [ItemOf(p)], [], false) == AloneBase(profile, count, ref) + ProjectedSize(p)
  {
    var x := ItemOf(p);
    SingleRefs(x);
    BundleSizeExact(profile, count, [x], [], false);
    OneJsonSize(x);
    OneTextSize("", Dumps);
    NoRefsSize();
  }

  function PackFor(f: Frame, n: nat): Projected {
    Project(f.profileName, f.toolName, Claiming(f.name, Fill(n)))
  }

  /** The frame of a pack no profile lists. */
  predicate Plain(f: Frame) {
    && f.name != "" && f.fixed == PROJECTION_NON_CLAIMS
    && SpecFor(ProfileFor(f.profileName).specs, f.name) == ClaimSpec(f.name)
  }

  lemma UnfittedShaped(f: Frame, n: nat)
    requires Plain(f)
    ensures Unfitted(f.profileName, f.toolName, Claiming(f.name, Fill(n))) == ShapeOf(f, n)
  {
    var claim := Fill(n);
    Shaped(f.profileName, f.toolName, f.name, claim) by {
      FillCost(n);
    }
  }

  lemma PackShaped(f: Frame, n: nat)
    requires Plain(f)
    ensures PackFor(f, n) == FitProjected(ShapeOf(f, n))
  {
    UnfittedShaped(f, n);
  }

  lemma ClaimIsThere(f: Frame, n: nat)
    requires n > 0
    ensures Fill(n) in ClaimsWith(f, n)
  {
    var claim := Fill(n);
    ClaimStays(f.fixed, claim) by {
      FillTrimmed(n);
    }
  }

  lemma ClaimStays(fixed: seq<string>, claim: string)
    requires Strip(claim) == claim != ""
    ensures claim in CleanRefs(fixed + [claim])
  {
    CleanedAfter(fixed, [claim], claim);
  }

  lemma PackSizeExact(f: Frame, n: nat)
    requires Plain(f) && n > 4000
    ensures ProjectedSize(PackFor(f, n)) == FloorOfFill(f, n)
    ensures var p := PackFor(f, n);
      p.sourceRefs == [] && p.receiptRefs == [] && p.receiptRef == None && p.contextPackRefs == [ContextPackRef(f.name)]
  {
    PackShaped(f, n);
    ClaimIsThere(f, n);
    ShapeReached(ShapeOf(f, n), Fill(n));
  }

  /** The first size tried leaves room in every profile. */
  lemma StartFits(f: Frame, tool: string)
    requires Plain(f) && f.toolName == Some(tool) && |f.profileName| <= 12 && |tool| <= 30 && |f.name| <= 5
    ensures FloorOfFill(f, 4001) <= 9600
  {
    FixedClaimsShort();
    ClaimsCost(f, 4001);
    ShapeAtMost(f.profileName, tool, f.name, ClaimsWith(f, 4001), ClaimJsonBase(f.name) + 4001);
    FixedClaimsCost();
    JsonBaseAtMost(f.name);
    DecimalLength(ClaimJsonBase(f.name) + 4001, 3) by {
      assert Power10(4) == 10_000;
    }
    DecimalLength(FloorChars(ShapeOf(f, 4001)), 3) by {
      assert Power10(4) == 10_000;
    }
  }

  lemma JsonBaseAtMost(name: string)
    requires |name| <= 5
    ensures ClaimJsonBase(name) <= 300
  {
    TextCostAtMostTwelve("name");
    TextCostAtMostTwelve("non_claims");
    TextCostAtMostTwelve(name);
  }

  lemma FixedClaimsCost()
    ensures ItemsCost(TextItems(CleanRefs(PROJECTION_NON_CLAIMS)), Dumps) <= 2608
  {
    ClaimsAtMost();
    CleanedCost(PROJECTION_NON_CLAIMS);
  }

  lemma CleanedCost(texts: seq<string>)
    ensures ItemsCost(TextItems(CleanRefs(texts)), Dumps) <= ListSize(texts)
  {
    CleaningNeverGrows(texts, Dumps);
    StringsSize(CleanRefs(texts));
  }

  lemma AloneBaseAtMost(profile: Profile, name: string)
    requires |name| <= 5
    requires |profile.name| <= 12 && profile.totalMaxChars < 100_000 && profile.nonClaims == PROJECTION_NON_CLAIMS
    ensures AloneBase(profile, 2, ContextPackRef(name)) <= 5853
  {
    BaseAtMost(profile, 2);
    VisibleRefsAtMost([ContextPackRef(name)]);
    RefAtMost(name);
    DecimalLength(2, 0) by {
      assert Power10(1) == 10;
    }
  }

  /** Some size of the first pack leaves less than four characters of the profile's budget. */
  lemma NearlyFull(f: Frame, profile: Profile, tool: string) returns (n: nat)
    requires Plain(f) && f.toolName == Some(tool) && |f.profileName| <= 12 && |tool| <= 30 && |f.name| <= 5
    requires |profile.name| <= 12 && profile.nonClaims == PROJECTION_NON_CLAIMS && 18_000 <= profile.totalMaxChars < 100_000
    ensures profile.totalMaxChars - 4 < BundleSize(profile, 2, [ItemOf(PackFor(f, n))], [], false) <= profile.totalMaxChars
  {
    var base := AloneBase(profile, 2, ContextPackRef(f.name));
    AloneBaseAtMost(profile, f.name);
    StartFits(f, tool);
    FixedClaimsShort();
    n := Crossing(f, 4001, profile.totalMaxChars - base);
    PackSizeExact(f, n);
    AloneExact(profile, 2, PackFor(f, n), ContextPackRef(f.name));
  }

  lemma MappedTwice<T, U>(x: T, f: T -> U)
    ensures Mapped([x, x], f) == [f(x), f(x)]
  {
  }

  lemma ItemsTwice(profileName: string, toolName: Option<string>, x: Payload, a: Item)
    requires a == ItemOf(Project(profileName, toolName, x))
    ensures Items(profileName, toolName, [x, x]) == [a, a]
  {
    MappedTwice(x, payload => ItemOf(Project(profileName, toolName, payload)));
  }

  lemma TwiceDescribed(p: Projected, profile: Profile)
    ensures profile.totalMaxChars - 4 < BundleSize(profile, 2, [ItemOf(p)], [], false) <= profile.totalMaxChars ==>
      Exceeds(profile, 2, [ItemOf(p), ItemOf(p)])
  {
    ProjectedDescribed(p);
    NearlyFullExceeds(profile, 2, ItemOf(p), ItemOf(p));
  }

  lemma FrameExceeds(f: Frame, profile: Profile, tool: string)
    requires Plain(f) && f.toolName == Some(tool) && |f.profileName| <= 12 && |tool| <= 30 && |f.name| <= 5
    requires |profile.name| <= 12 && profile.nonClaims == PROJECTION_NON_CLAIMS && 18_000 <= profile.totalMaxChars < 100_000
    ensures exists payload :: Exceeds(profile, 2, Items(f.profileName, f.toolName, [payload, payload]))
  {
    var n := NearlyFull(f, profile, tool);
    PayloadExceeds(f.profileName, f.toolName, Claiming(f.name, Fill(n)), profile);
  }

  lemma PayloadExceeds(profileName: string, toolName: Option<string>, x: Payload, profile: Profile)
    requires profile.totalMaxChars - 4
      < BundleSize(profile, 2, [ItemOf(Project(profileName, toolName, x))], [], false) <= profile.totalMaxChars
    ensures Exceeds(profile, 2, Items(profileName, toolName, [x, x]))
  {
    TwiceDescribed(Project(profileName, toolName, x), profile);
    ItemsTwice(profileName, toolName, x, ItemOf(Project(profileName, toolName, x)));
  }

  lemma UnlistedName(profileName: string)
    ensures SpecFor(ProfileFor(profileName).specs, "extra") == ClaimSpec("extra")
  {
    var specs := ProfileFor(profileName).specs;
    assert Unnamed(specs, "extra");
    SpecForUnlisted(specs, "extra");
  }

  lemma ProfileShape(profileName: string)
    ensures var profile := ProfileFor(profileName);
      |profile.name| <= 12 && profile.nonClaims == PROJECTION_NON_CLAIMS && 18_000 <= profile.totalMaxChars < 100_000
  {
  }

  /** Under every profile there is a payload that, given twice, makes a bundle of projected packs that holds
      one of them and is over its budget. */
  lemma ProjectedPacksCanExceed(profileName: string)
    requires ProfileFor(profileName).name == profileName
    ensures exists payload ::
      Exceeds(ProfileFor(profileName), 2, Items(profileName, Some(BUNDLE_TOOL), [payload, payload]))
  {
    UnlistedName(profileName);
    ProfileShape(profileName);
    FrameExceeds(Frame(profileName, Some(BUNDLE_TOOL), "extra", PROJECTION_NON_CLAIMS), ProfileFor(profileName), BUNDLE_TOOL);
  }
}
