/** Trust by reference from a projection payload (src/finharness/agent_context_trust_map.py). */
module TrustMap {
  import opened Common

  /** A loosely typed list of references: absent or of another type, one text, or a list. */
  datatype RefField = NoRefs | OneRef(text: string) | ManyRefs(texts: seq<string>)

  /** A `trust` value: not a dict, a dict ContextTrust rejects, or a valid trust. */
  datatype TrustField = NoTrust | Malformed | Valid(trust: string)

  datatype Item = NotADict | Item(trust: TrustField, sourceRefs: RefField, receiptRef: Option<string>)

  /** `items` is `None` when it is not a list. */
  datatype Summary = NoSummary | Summary(trust: TrustField, items: Option<seq<Item>>)

  datatype Pack =
    | MalformedPack
    | Pack(summary: Summary, sourceRefs: RefField, receiptRefs: RefField, contextPackRefs: RefField)

  datatype Finding =
    | MalformedPackAt(pack: nat) | PackTrustWithoutRefs(pack: nat) | MalformedPackTrust(pack: nat)
    | MalformedItem(item: nat) | MalformedItemTrust(item: nat) | ItemTrustWithoutRef(item: nat)

  /** _extract_string_list */
  function RefList(f: RefField): seq<string> {
    match f
    case NoRefs => []
    case OneRef(text) => [text]
    case ManyRefs(texts) => Visible(texts)
  }

  function PackRefs(p: Pack): seq<string>
    requires p.Pack?
  {
    RefList(p.sourceRefs) + RefList(p.receiptRefs) + RefList(p.contextPackRefs)
  }

  function ItemRefs(item: Item): seq<string>
    requires item.Item?
  {
    RefList(item.sourceRefs)
    + (if item.receiptRef.Some? && Strip(item.receiptRef.value) != "" then [Strip(item.receiptRef.value)] else [])
  }

  function PackTrust(p: Pack): TrustField
    requires p.Pack?
  {
    if p.summary.Summary? then p.summary.trust else NoTrust
  }

  // ------------------------------------------------ what a payload says

  /** The field names the reference: as its one text, or as a non-blank text of its list. */
  predicate Names(f: RefField, ref: string) {
    match f
    case NoRefs => false
    case OneRef(text) => text == ref
    case ManyRefs(texts) => ref in texts && Strip(ref) != ""
  }

  /** An item names references by its source_refs, and by its receipt_ref without blanks at either end. */
  predicate ItemNames(item: Item, ref: string) {
    && item.Item?
    && (Names(item.sourceRefs, ref) || (ref != "" && item.receiptRef.Some? && Strip(item.receiptRef.value) == ref))
  }

  /** A pack names them by its source_refs, receipt_refs and context_pack_refs. */
  predicate PackNames(p: Pack, ref: string) {
    p.Pack? && (Names(p.sourceRefs, ref) || Names(p.receiptRefs, ref) || Names(p.contextPackRefs, ref))
  }

  /** It has valid trust, and names the reference. */
  predicate ItemSpeaks(item: Item, ref: string) {
    item.Item? && item.trust.Valid? && ItemNames(item, ref)
  }

  predicate PackSpeaks(p: Pack, ref: string) {
    p.Pack? && p.summary.Summary? && p.summary.trust.Valid? && PackNames(p, ref)
  }

  function ItemsOf(p: Pack): seq<Item> {
    if p.Pack? && p.summary.Summary? && p.summary.items.Some? then p.summary.items.value else []
  }

  predicate NoneSpeaks(items: seq<Item>, from: nat, ref: string) {
    forall l :: from <= l < |items| ==> !ItemSpeaks(items[l], ref)
  }

  /** The item at (i, k) speaks of the reference, and no later one does, in pack and item order. */
  predicate LastItem(packs: seq<Pack>, i: int, k: int, ref: string) {
    && 0 <= i < |packs| && 0 <= k < |ItemsOf(packs[i])|
    && ItemSpeaks(ItemsOf(packs[i])[k], ref) && NoneSpeaks(ItemsOf(packs[i]), k + 1, ref)
    && forall j :: i < j < |packs| ==> NoneSpeaks(ItemsOf(packs[j]), 0, ref)
  }

  predicate NoItem(packs: seq<Pack>, ref: string) {
    forall j :: 0 <= j < |packs| ==> NoneSpeaks(ItemsOf(packs[j]), 0, ref)
  }

  predicate FirstPack(packs: seq<Pack>, i: int, ref: string) {
    0 <= i < |packs| && PackSpeaks(packs[i], ref) && forall j :: 0 <= j < i ==> !PackSpeaks(packs[j], ref)
  }

  predicate NoPack(packs: seq<Pack>, ref: string) {
    forall j :: 0 <= j < |packs| ==> !PackSpeaks(packs[j], ref)
  }

  // ------------------------------------------- the claims, in traversal order

  datatype Claim = Claim(ref: string, trust: string, fromItem: bool)

  function Claims(refs: seq<string>, trust: TrustField, fromItem: bool): seq<Claim> {
    if trust.Valid? then seq(|refs|, i requires 0 <= i < |refs| => Claim(refs[i], trust.trust, fromItem)) else []
  }

  function ItemClaims(items: seq<Item>): seq<Claim> {
    if items == [] then []
    else
      var last := items[|items| - 1];
      ItemClaims(items[..|items| - 1]) + (if last.Item? then Claims(ItemRefs(last), last.trust, true) else [])
  }

  function ClaimsOf(p: Pack): seq<Claim> {
    if p.MalformedPack? then []
    else
      Claims(PackRefs(p), PackTrust(p), false)
      + (if p.summary.Summary? && p.summary.items.Some? then ItemClaims(p.summary.items.value) else [])
  }

  function AllClaims(packs: seq<Pack>): seq<Claim> {
    if packs == [] then [] else AllClaims(packs[..|packs| - 1]) + ClaimsOf(packs[|packs| - 1])
  }

  /** What the updates make of the claims: an item claim overrides, a pack claim only fills in. */
  function Settle(trust: map<string, string>, claims: seq<Claim>): map<string, string> {
    if claims == [] then trust
    else
      var before, last := Settle(trust, claims[..|claims| - 1]), claims[|claims| - 1];
      if last.fromItem || last.ref !in before then before[last.ref := last.trust] else before
  }

  lemma {:induction false} SettleAppend(trust: map<string, string>, a: seq<Claim>, b: seq<Claim>)
    ensures Settle(trust, a + b) == Settle(Settle(trust, a), b)
  {
    if b == [] {
      assert a + b == a;
    } else {
      assert (a + b)[..|a + b| - 1] == a + b[..|b| - 1];
      SettleAppend(trust, a, b[..|b| - 1]);
    }
  }

  // ---------------------------------------------------------------- findings

  function When(condition: bool, f: Finding): seq<Finding> {
    if condition then [f] else []
  }

  function ItemFinding(item: Item, n: nat): seq<Finding> {
    if item.NotADict? then [MalformedItem(n)]
    else if item.trust.Malformed? then [MalformedItemTrust(n)]
    else When(item.trust.Valid? && ItemRefs(item) == [], ItemTrustWithoutRef(n))
  }

  function ItemFindings(items: seq<Item>): seq<Finding> {
    if items == [] then []
    else ItemFindings(items[..|items| - 1]) + ItemFinding(items[|items| - 1], |items| - 1)
  }

  function PackFinding(p: Pack, n: nat): seq<Finding>
    requires p.Pack?
  {
    if PackTrust(p).Malformed? then [MalformedPackTrust(n)]
    else When(PackTrust(p).Valid? && PackRefs(p) == [], PackTrustWithoutRefs(n))
  }

  function FindingsOf(p: Pack, n: nat): seq<Finding> {
    if p.MalformedPack? then [MalformedPackAt(n)]
    else
      PackFinding(p, n)
      + (if p.summary.Summary? && p.summary.items.Some? then ItemFindings(p.summary.items.value) else [])
  }

  function AllFindings(packs: seq<Pack>): seq<Finding> {
    if packs == [] then []
    else AllFindings(packs[..|packs| - 1]) + FindingsOf(packs[|packs| - 1], |packs| - 1)
  }

  lemma ItemStep(earlier: seq<Item>, item: Item, trust: map<string, string>)
    ensures Settle(trust, ItemClaims(earlier + [item])) ==
      if item.Item? then Settle(Settle(trust, ItemClaims(earlier)), Claims(ItemRefs(item), item.trust, true))
      else Settle(trust, ItemClaims(earlier))
  {
    assert (earlier + [item])[..|earlier|] == earlier;
    var own := if item.Item? then Claims(ItemRefs(item), item.trust, true) else [];
    assert ItemClaims(earlier + [item]) == ItemClaims(earlier) + own;
    SettleAppend(trust, ItemClaims(earlier), own);
  }

  lemma AppendAssociates(a: seq<Finding>, b: seq<Finding>, c: seq<Finding>)
    ensures a + (b + c) == a + b + c
  {
  }

  lemma ItemFindingStep(earlier: seq<Item>, item: Item, findings: seq<Finding>)
    ensures findings + ItemFindings(earlier + [item])
      == findings + ItemFindings(earlier) + ItemFinding(item, |earlier|)
  {
    var all := earlier + [item];
    assert all[..|all| - 1] == earlier && all[|all| - 1] == item;
    AppendAssociates(findings, ItemFindings(earlier), ItemFinding(item, |earlier|));
  }

  lemma PackStep(p: Pack, n: nat, trust: map<string, string>, findings: seq<Finding>)
    requires p.Pack?
    ensures var own := Settle(trust, Claims(PackRefs(p), PackTrust(p), false));
      var listed := p.summary.Summary? && p.summary.items.Some?;
      && Settle(trust, ClaimsOf(p)) == (if listed then Settle(own, ItemClaims(p.summary.items.value)) else own)
      && findings + FindingsOf(p, n)
           == findings + PackFinding(p, n) + (if listed then ItemFindings(p.summary.items.value) else [])
  {
    var claims := Claims(PackRefs(p), PackTrust(p), false);
    AppendAssociates(findings, PackFinding(p, n),
                     if p.summary.Summary? && p.summary.items.Some? then ItemFindings(p.summary.items.value) else []);
    if p.summary.Summary? && p.summary.items.Some? {
      SettleAppend(trust, claims, ItemClaims(p.summary.items.value));
    } else {
      assert ClaimsOf(p) == claims;
    }
  }

  /** The dictionary and list the extraction fills in place. */
  class TrustExtraction {
    var trust: map<string, string>
    var findings: seq<Finding>

    constructor ()
      ensures trust == map[] && findings == []
    {
      trust, findings := map[], [];
    }

    method Record(refs: seq<string>, t: TrustField, fromItem: bool)
      modifies this`trust
      ensures trust == Settle(old(trust), Claims(refs, t, fromItem))
    {
      if !t.Valid? {
        return;
      }
      ghost var claims := Claims(refs, t, fromItem);
      for i := 0 to |refs|
        invariant trust == Settle(old(trust), claims[..i])
      {
        assert claims[..i + 1][..i] == claims[..i];
        if fromItem || refs[i] !in trust {
          trust := trust[refs[i] := t.trust];
        }
      }
      assert claims[..|claims|] == claims;
    }

    method ExtractItemsTrust(items: seq<Item>)
      modifies this
      ensures trust == Settle(old(trust), ItemClaims(items))
      ensures findings == old(findings) + ItemFindings(items)
    {
      for i := 0 to |items|
        invariant trust == Settle(old(trust), ItemClaims(items[..i]))
        invariant findings == old(findings) + ItemFindings(items[..i])
      {
        var item := items[i];
        ghost var earlier := items[..i];
        assert items[..i + 1] == earlier + [item];
        ItemStep(earlier, item, old(trust));
        ItemFindingStep(earlier, item, old(findings));
        findings := findings + ItemFinding(item, i);
        if item.Item? {
          Record(ItemRefs(item), item.trust, true);
        }
      }
      assert items[..|items|] == items;
    }

    method ExtractPackTrust(p: Pack, n: nat)
      requires p.Pack?
      modifies this
      ensures trust == Settle(old(trust), ClaimsOf(p))
      ensures findings == old(findings) + FindingsOf(p, n)
    {
      PackStep(p, n, trust, findings);
      findings := findings + PackFinding(p, n);
      Record(PackRefs(p), PackTrust(p), false);
      if p.summary.Summary? && p.summary.items.Some? {
        ExtractItemsTrust(p.summary.items.value);
      }
    }

    /** `packs` is `None` when the payload's packs are not a list. */
    method ExtractContextTrustMap(packs: Option<seq<Pack>>)
      requires trust == map[] && findings == []
      modifies this
      ensures packs.None? ==> trust == map[] && findings == []
      ensures packs.Some? ==> findings == AllFindings(packs.value) && forall ref :: Find(trust, ref) == TrustOf(packs.value, ref)
    {
      if packs.None? {
        return;
      }
      var ps := packs.value;
      for n := 0 to |ps|
        invariant trust == Settle(map[], AllClaims(ps[..n]))
        invariant findings == AllFindings(ps[..n])
      {
        assert ps[..n + 1][..n] == ps[..n];
        SettleAppend(map[], AllClaims(ps[..n]), ClaimsOf(ps[n]));
        if ps[n].Pack? {
          ExtractPackTrust(ps[n], n);
        } else {
          findings := findings + [MalformedPackAt(n)];
        }
      }
      assert ps[..|ps|] == ps;
    }
  }

  // ----------------------------------------------------------- precedence

  function Find(trust: map<string, string>, ref: string): Option<string> {
    if ref in trust then Some(trust[ref]) else None
  }

  lemma {:induction false} VisibleExact(texts: seq<string>, x: string)
    ensures x in Visible(texts) <==> x in texts && Strip(x) != ""
  {
    if texts != [] {
      VisibleExact(texts[1..], x);
      assert texts == [texts[0]] + texts[1..];
    }
  }

  lemma RefListExact(f: RefField, ref: string)
    ensures ref in RefList(f) <==> Names(f, ref)
  {
    if f.ManyRefs? {
      VisibleExact(f.texts, ref);
    }
  }

  lemma RefsExact(p: Pack, item: Item, ref: string)
    ensures p.Pack? ==> (ref in PackRefs(p) <==> PackNames(p, ref))
    ensures item.Item? ==> (ref in ItemRefs(item) <==> ItemNames(item, ref))
  {
    if p.Pack? {
      RefListExact(p.sourceRefs, ref);
      RefListExact(p.receiptRefs, ref);
      RefListExact(p.contextPackRefs, ref);
    }
    if item.Item? {
      RefListExact(item.sourceRefs, ref);
    }
  }

  /** Claims for a reference: item claims replace what was there, pack claims fill in what was not. */
  lemma {:induction false} ClaimsSettle(trust: map<string, string>, refs: seq<string>, t: TrustField, fromItem: bool, ref: string)
    ensures Find(Settle(trust, Claims(refs, t, fromItem)), ref) ==
      if t.Valid? && ref in refs && (fromItem || ref !in trust) then Some(t.trust) else Find(trust, ref)
    decreases |refs|
  {
    if t.Valid? && refs != [] {
      var init, last := refs[..|refs| - 1], refs[|refs| - 1];
      assert refs == init + [last];
      assert Claims(refs, t, fromItem)[..|refs| - 1] == Claims(init, t, fromItem);
      ClaimsSettle(trust, init, t, fromItem, ref);
      ClaimsSettle(trust, init, t, fromItem, last);
    }
  }

  /** The trust of the last item that speaks of the reference. */
  function LastTrust(items: seq<Item>, ref: string): Option<string> {
    if items == [] then None
    else
      var last := items[|items| - 1];
      if ItemSpeaks(last, ref) then Some(last.trust.trust) else LastTrust(items[..|items| - 1], ref)
  }

  function LastItemTrust(packs: seq<Pack>, ref: string): Option<string> {
    if packs == [] then None
    else
      var own := LastTrust(ItemsOf(packs[|packs| - 1]), ref);
      if own.Some? then own else LastItemTrust(packs[..|packs| - 1], ref)
  }

  function FirstPackTrust(packs: seq<Pack>, ref: string): Option<string> {
    if packs == [] then None
    else
      var earlier, last := FirstPackTrust(packs[..|packs| - 1], ref), packs[|packs| - 1];
      if earlier.Some? then earlier else if PackSpeaks(last, ref) then Some(last.summary.trust.trust) else None
  }

  lemma {:induction false} ItemsSettle(trust: map<string, string>, items: seq<Item>, ref: string)
    ensures Find(Settle(trust, ItemClaims(items)), ref) ==
      if LastTrust(items, ref).Some? then LastTrust(items, ref) else Find(trust, ref)
  {
    if items != [] {
      var init, last := items[..|items| - 1], items[|items| - 1];
      assert items == init + [last];
      ItemsSettle(trust, init, ref);
      ItemStep(init, last, trust);
      if last.Item? {
        ClaimsSettle(Settle(trust, ItemClaims(init)), ItemRefs(last), last.trust, true, ref);
        RefsExact(MalformedPack, last, ref);
      }
    }
  }

  /** Over one pack: its items first; else what was there; else the pack's own trust. */
  lemma PackSettle(trust: map<string, string>, p: Pack, ref: string)
    ensures var own := LastTrust(ItemsOf(p), ref);
      Find(Settle(trust, ClaimsOf(p)), ref) ==
        if own.Some? then own
        else if ref in trust then Some(trust[ref])
        else if PackSpeaks(p, ref) then Some(p.summary.trust.trust) else None
  {
    if p.Pack? {
      var own := Settle(trust, Claims(PackRefs(p), PackTrust(p), false));
      PackStep(p, 0, trust, []);
      ClaimsSettle(trust, PackRefs(p), PackTrust(p), false, ref);
      RefsExact(p, NotADict, ref);
      ItemsSettle(own, ItemsOf(p), ref);
    }
  }

  /** The trust the extraction ends with for a reference. */
  function TrustOf(packs: seq<Pack>, ref: string): Option<string> {
    Find(Settle(map[], AllClaims(packs)), ref)
  }

  lemma {:induction false} TrustSettles(packs: seq<Pack>, ref: string)
    ensures TrustOf(packs, ref) ==
      if LastItemTrust(packs, ref).Some? then LastItemTrust(packs, ref) else FirstPackTrust(packs, ref)
  {
    if packs != [] {
      var init, last := packs[..|packs| - 1], packs[|packs| - 1];
      TrustSettles(init, ref);
      SettleAppend(map[], AllClaims(init), ClaimsOf(last));
      PackSettle(Settle(map[], AllClaims(init)), last, ref);
    }
  }

  lemma {:induction false} NoneSpeaksExact(items: seq<Item>, ref: string)
    ensures NoneSpeaks(items, 0, ref) <==> LastTrust(items, ref).None?
  {
    if items != [] {
      var n := |items| - 1;
      NoneSpeaksExact(items[..n], ref);
      assert forall l :: 0 <= l < n ==> items[..n][l] == items[l];
      assert NoneSpeaks(items, 0, ref) <==> NoneSpeaks(items[..n], 0, ref) && !ItemSpeaks(items[n], ref);
    }
  }

  lemma {:induction false} LastSpeaks(items: seq<Item>, k: nat, ref: string)
    requires k < |items| && ItemSpeaks(items[k], ref) && NoneSpeaks(items, k + 1, ref)
    ensures LastTrust(items, ref) == Some(items[k].trust.trust)
  {
    var n := |items| - 1;
    if k < n {
      assert !ItemSpeaks(items[n], ref);
      assert forall l :: 0 <= l < n ==> items[..n][l] == items[l];
      LastSpeaks(items[..n], k, ref);
    }
  }

  lemma {:induction false} LastItemFound(packs: seq<Pack>, i: int, k: int, ref: string)
    requires LastItem(packs, i, k, ref)
    ensures LastItemTrust(packs, ref) == Some(ItemsOf(packs[i])[k].trust.trust)
    decreases |packs|
  {
    var n := |packs| - 1;
    if i == n {
      LastSpeaks(ItemsOf(packs[n]), k, ref);
    } else {
      assert forall j :: 0 <= j < n ==> packs[..n][j] == packs[j];
      LastItemFound(packs[..n], i, k, ref);
      NoneSpeaksExact(ItemsOf(packs[n]), ref);
    }
  }

  lemma {:induction false} NoItemFound(packs: seq<Pack>, ref: string)
    requires NoItem(packs, ref)
    ensures LastItemTrust(packs, ref) == None
    decreases |packs|
  {
    if packs != [] {
      var n := |packs| - 1;
      assert forall j :: 0 <= j < n ==> packs[..n][j] == packs[j];
      NoItemFound(packs[..n], ref);
      NoneSpeaksExact(ItemsOf(packs[n]), ref);
    }
  }

  lemma {:induction false} NoPackFound(packs: seq<Pack>, ref: string)
    requires NoPack(packs, ref)
    ensures FirstPackTrust(packs, ref) == None
    decreases |packs|
  {
    if packs != [] {
      var n := |packs| - 1;
      assert forall j :: 0 <= j < n ==> packs[..n][j] == packs[j];
      NoPackFound(packs[..n], ref);
    }
  }

  lemma {:induction false} FirstPackFound(packs: seq<Pack>, i: int, ref: string)
    requires FirstPack(packs, i, ref)
    ensures FirstPackTrust(packs, ref) == Some(packs[i].summary.trust.trust)
    decreases |packs|
  {
    var n := |packs| - 1;
    assert forall j :: 0 <= j < n ==> packs[..n][j] == packs[j];
    if i == n {
      NoPackFound(packs[..n], ref);
    } else {
      FirstPackFound(packs[..n], i, ref);
    }
  }

  /** For any payload, however packs and items interleave: a reference's final trust is that of the last
      item with valid trust that names it, in pack and item order, whatever the packs say; if there is
      none, that of the first pack with valid trust that names it; and otherwise it has none. */
  lemma TrustPrecedence(packs: seq<Pack>, ref: string)
    ensures forall i, k :: LastItem(packs, i, k, ref) ==> TrustOf(packs, ref) == Some(ItemsOf(packs[i])[k].trust.trust)
    ensures NoItem(packs, ref) ==>
      && (forall i :: FirstPack(packs, i, ref) ==> TrustOf(packs, ref) == Some(packs[i].summary.trust.trust))
      && (NoPack(packs, ref) ==> TrustOf(packs, ref) == None)
  {
    TrustSettles(packs, ref);
    forall i, k | LastItem(packs, i, k, ref) ensures TrustOf(packs, ref) == Some(ItemsOf(packs[i])[k].trust.trust) {
      LastItemFound(packs, i, k, ref);
    }
    if NoItem(packs, ref) {
      NoItemFound(packs, ref);
      forall i | FirstPack(packs, i, ref) ensures TrustOf(packs, ref) == Some(packs[i].summary.trust.trust) {
        FirstPackFound(packs, i, ref);
      }
      if NoPack(packs, ref) {
        NoPackFound(packs, ref);
      }
    }
  }

  // ------------------------------------------------------- what is found

  /** The item's own finding, by its place in its pack. */
  predicate ItemFault(item: Item, k: nat, f: Finding) {
    || (item.NotADict? && f == MalformedItem(k))
    || (item.Item? && item.trust.Malformed? && f == MalformedItemTrust(k))
    || (item.Item? && item.trust.Valid? && f == ItemTrustWithoutRef(k) && ItemRefs(item) == [])
  }

  predicate PackFault(p: Pack, n: nat, f: Finding) {
    || (p.MalformedPack? && f == MalformedPackAt(n))
    || (p.Pack? && p.summary.Summary? && p.summary.trust.Malformed? && f == MalformedPackTrust(n))
    || (p.Pack? && p.summary.Summary? && p.summary.trust.Valid? && f == PackTrustWithoutRefs(n) && PackRefs(p) == [])
  }

  predicate SomeItemFault(items: seq<Item>, f: Finding) {
    exists k :: 0 <= k < |items| && ItemFault(items[k], k, f)
  }

  lemma SomeItemFaultSnoc(init: seq<Item>, last: Item, f: Finding)
    ensures SomeItemFault(init + [last], f) <==> SomeItemFault(init, f) || ItemFault(last, |init|, f)
  {
    var all := init + [last];
    if k :| 0 <= k < |init| && ItemFault(init[k], k, f) {
      assert ItemFault(all[k], k, f);
    }
    if ItemFault(last, |init|, f) {
      assert ItemFault(all[|init|], |init|, f);
    }
  }

  lemma ItemFindingExact(item: Item, n: nat, f: Finding)
    ensures f in ItemFinding(item, n) <==> ItemFault(item, n, f)
  {
  }

  lemma {:induction false} ItemFindingsExact(items: seq<Item>, f: Finding)
    ensures f in ItemFindings(items) <==> SomeItemFault(items, f)
  {
    if items != [] {
      var init, last := items[..|items| - 1], items[|items| - 1];
      ItemFindingsExact(init, f);
      ItemFindingExact(last, |init|, f);
      SomeItemFaultSnoc(init, last, f);
      assert items == init + [last];
    }
  }

  predicate Fault(p: Pack, n: nat, f: Finding) {
    PackFault(p, n, f) || SomeItemFault(ItemsOf(p), f)
  }

  lemma PackFindingsExact(p: Pack, n: nat, f: Finding)
    ensures f in FindingsOf(p, n) <==> Fault(p, n, f)
  {
    ItemFindingsExact(ItemsOf(p), f);
  }

  predicate SomeFault(packs: seq<Pack>, f: Finding) {
    exists i :: 0 <= i < |packs| && Fault(packs[i], i, f)
  }

  lemma SomeFaultSnoc(init: seq<Pack>, last: Pack, f: Finding)
    ensures SomeFault(init + [last], f) <==> SomeFault(init, f) || Fault(last, |init|, f)
  {
    var all := init + [last];
    if i :| 0 <= i < |init| && Fault(init[i], i, f) {
      assert Fault(all[i], i, f);
    }
    if Fault(last, |init|, f) {
      assert Fault(all[|init|], |init|, f);
    }
  }

  lemma FindingAdded(init: seq<Pack>, last: Pack, f: Finding)
    ensures f in AllFindings(init + [last]) <==> f in AllFindings(init) || Fault(last, |init|, f)
  {
    var all := init + [last];
    assert all[..|all| - 1] == init && all[|all| - 1] == last;
    PackFindingsExact(last, |init|, f);
  }

  /** The findings are exactly the faults of the packs and their items, each with its place. */
  lemma {:induction false} FindingsExact(packs: seq<Pack>, f: Finding)
    ensures f in AllFindings(packs) <==> SomeFault(packs, f)
  {
    if packs != [] {
      var init, last := packs[..|packs| - 1], packs[|packs| - 1];
      assert packs == init + [last];
      FindingsExact(init, f);
      FindingAdded(init, last, f);
      SomeFaultSnoc(init, last, f);
    }
  }
}
