/** JSON trees and the length of their serialized text. */
module Json {
  import opened Common

  /** `Opaque` is a Python value json.dumps rejects; `text` is its `str()`. */
  datatype Json =
    | Null
    | Bool(b: bool)
    | Num(text: string)
    | Str(s: string)
    | Opaque(text: string)
    | Arr(items: seq<Json>)
    | Obj(fields: seq<Field>)

  /** Objects keep their fields in order; a key repeated later is shadowed. */
  datatype Field = Field(key: string, value: Json)

  /** `Dumps`: json.dumps, with ", " and ": " and ASCII escapes. `Compact`: model_dump_json, with
      "," and ":" and non-ASCII text as it is. */
  datatype Style = Dumps | Compact

  function SeparatorSize(style: Style): nat {
    if style.Dumps? then 2 else 1
  }

  /** Characters one string character takes inside quotes (section 7 of RFC 8259). */
  function CharCost(c: char, style: Style): (n: nat)
    ensures n >= 1
  {
    if c == '"' || c == '\\' || c == '\n' || c == '\r' || c == '\t' || c == '\U{0008}' || c == '\U{000C}' then 2
    else if c < ' ' then 6
    else if style.Compact? || c <= '~' then 1
    else if c <= '\U{FFFF}' then 6
    else 12
  }

  function TextCost(s: string, style: Style): nat {
    if s == [] then 0 else TextCost(s[..|s| - 1], style) + CharCost(s[|s| - 1], style)
  }

  function TextSize(s: string, style: Style): nat {
    TextCost(s, style) + 2
  }

  /** Every item with a separator after it. */
  function ItemsCost(items: seq<Json>, style: Style): nat
    decreases items, 0
  {
    if items == [] then 0 else Size(items[0], style) + SeparatorSize(style) + ItemsCost(items[1..], style)
  }

  function FieldSize(f: Field, style: Style): nat
    decreases f, 2
  {
    TextSize(f.key, style) + SeparatorSize(style) + Size(f.value, style)
  }

  function FieldsCost(fields: seq<Field>, style: Style): nat
    decreases fields, 0
  {
    if fields == [] then 0 else FieldSize(fields[0], style) + SeparatorSize(style) + FieldsCost(fields[1..], style)
  }

  /** Length of the serialized text. Sorting the keys does not change it. */
  function Size(v: Json, style: Style): int
    ensures Size(v, style) >= 0
    decreases v, 1
  {
    match v
    case Null => 4
    case Bool(b) => if b then 4 else 5
    case Num(text) => |text|
    case Str(s) => TextSize(s, style)
    case Opaque(text) => TextSize(text, style)
    case Arr(items) => 2 + (if items == [] then 0 else ItemsCost(items, style) - SeparatorSize(style))
    case Obj(fields) => 2 + (if fields == [] then 0 else FieldsCost(fields, style) - SeparatorSize(style))
  }

  function Lookup(fields: seq<Field>, key: string): Option<Json> {
    if fields == [] then None
    else if fields[0].key == key then Some(fields[0].value)
    else Lookup(fields[1..], key)
  }

  function Keys(fields: seq<Field>): seq<string> {
    if fields == [] then [] else [fields[0].key] + Keys(fields[1..])
  }

  function Strings(texts: seq<string>): Json {
    Arr(seq(|texts|, i requires 0 <= i < |texts| => Str(texts[i])))
  }

  lemma {:induction false} TextCostAppend(a: string, b: string, style: Style)
    ensures TextCost(a + b, style) == TextCost(a, style) + TextCost(b, style)
  {
    if b == [] {
      assert a + b == a;
    } else {
      assert (a + b)[..|a + b| - 1] == a + b[..|b| - 1];
      TextCostAppend(a, b[..|b| - 1], style);
    }
  }

  lemma {:induction false} TextCostAtLeastLength(s: string, style: Style)
    ensures TextCost(s, style) >= |s|
  {
    if s != [] {
      TextCostAtLeastLength(s[..|s| - 1], style);
    }
  }

  /** Plain ASCII text costs one per character. */
  lemma {:induction false} PlainTextCost(s: string, style: Style)
    requires forall i :: 0 <= i < |s| ==> ' ' <= s[i] <= '~' && s[i] != '"' && s[i] != '\\'
    ensures TextCost(s, style) == |s|
  {
    if s != [] {
      PlainTextCost(s[..|s| - 1], style);
    }
  }

  lemma {:induction false} ItemsCostAppend(a: seq<Json>, b: seq<Json>, style: Style)
    ensures ItemsCost(a + b, style) == ItemsCost(a, style) + ItemsCost(b, style)
  {
    if a == [] {
      assert a + b == b;
    } else {
      assert (a + b)[1..] == a[1..] + b;
      ItemsCostAppend(a[1..], b, style);
    }
  }

  lemma {:induction false} FieldsCostAppend(a: seq<Field>, b: seq<Field>, style: Style)
    ensures FieldsCost(a + b, style) == FieldsCost(a, style) + FieldsCost(b, style)
  {
    if a == [] {
      assert a + b == b;
    } else {
      assert (a + b)[1..] == a[1..] + b;
      FieldsCostAppend(a[1..], b, style);
    }
  }
}

/** Recursive bounding of summaries (src/finharness/agent_context.py,
    src/finharness/agent_context_projection.py). */
module ContextBounding {
  import opened Common
  import opened Json

  const TRUNCATED := "... [truncated]"

  /** `coerce` says whether a value json.dumps rejects is replaced by its text, as agent_context.py
      does and agent_context_projection.py does not. */
  datatype Limits = Limits(maxItems: nat, maxChars: int, coerce: bool)

  /** Python's `s[:n]`, where a negative n counts from the end. */
  function Prefix(s: string, n: int): string {
    if n >= 0 then s[..Min(n, |s|)] else s[..Max(0, |s| + n)]
  }

  function TruncateText(s: string, maxChars: int): string {
    if |s| <= maxChars then s else RStrip(Prefix(s, maxChars - 15)) + TRUNCATED
  }

  /** At most `left` more items. */
  function BoundedItems(items: seq<Json>, left: nat, l: Limits): seq<Json>
    decreases items, 0
  {
    if items == [] || left == 0 then [] else [Bounded(items[0], l)] + BoundedItems(items[1..], left - 1, l)
  }

  function BoundedFields(fields: seq<Field>, left: nat, l: Limits): seq<Field>
    decreases fields, 0
  {
    if fields == [] || left == 0 then []
    else [Field(fields[0].key, Bounded(fields[0].value, l))] + BoundedFields(fields[1..], left - 1, l)
  }

  /** _bounded_value */
  function Bounded(v: Json, l: Limits): Json
    decreases v, 1
  {
    match v
    case Obj(fields) => Obj(BoundedFields(fields, l.maxItems, l))
    case Arr(items) => Arr(BoundedItems(items, l.maxItems, l))
    case Str(s) => Str(TruncateText(s, l.maxChars))
    case Opaque(text) => if l.coerce then Str(text) else v
    case _ => v
  }

  /** _bounded_summary: every top-level key stays. */
  function BoundedSummary(fields: seq<Field>, l: Limits): seq<Field> {
    BoundedFields(fields, |fields|, l)
  }

  // ------------------------------------------------------------ truncation

  lemma TruncatedLength(s: string, maxChars: int)
    requires maxChars >= 15
    ensures |TruncateText(s, maxChars)| <= maxChars
    ensures |s| > maxChars ==> |TruncateText(s, maxChars)| < |s|
  {
  }

  /** The limit is respected on every text exactly when it leaves room for the 15-character mark;
      below that, slicing by a negative bound keeps text and the result outgrows the limit. */
  lemma TruncationBoundExact(maxChars: nat)
    ensures (forall s :: |TruncateText(s, maxChars)| <= maxChars) <==> maxChars >= 15
  {
    if maxChars >= 15 {
      forall s ensures |TruncateText(s, maxChars)| <= maxChars {
        TruncatedLength(s, maxChars);
      }
    } else {
      var s := seq(15, _ => 'a');
      assert |s| == 15 && |TRUNCATED| == 15;
      assert |TruncateText(s, maxChars)| >= 15;
    }
  }

  lemma ShorterTailCostsLess(kept: string, tail: string, mark: string, style: Style)
    requires TextCost(mark, style) <= |tail|
    ensures TextCost(kept + mark, style) <= TextCost(kept + tail, style)
  {
    TextCostAppend(kept, tail, style);
    TextCostAppend(kept, mark, style);
    TextCostAtLeastLength(tail, style);
  }

  lemma MarkCost(style: Style)
    ensures TextCost(TRUNCATED, style) == 15
  {
    PlainTextCost(TRUNCATED, style);
  }

  lemma TruncationShrinks(s: string, maxChars: int, style: Style)
    requires maxChars >= 15
    ensures TextSize(TruncateText(s, maxChars), style) <= TextSize(s, style)
  {
    if |s| > maxChars {
      var kept := RStrip(Prefix(s, maxChars - 15));
      MarkCost(style);
      ShorterTailCostsLess(kept, s[|kept|..], TRUNCATED, style);
      assert s == kept + s[|kept|..];
    }
  }

  /** The first `k` characters end in a non-blank and only blanks follow them, up to `room`. */
  predicate CutsBlanks(s: string, k: nat, room: nat)
    requires k <= room <= |s|
  {
    && (k > 0 ==> !IsSpace(s[k - 1]))
    && forall i :: k <= i < room ==> IsSpace(s[i])
  }

  /** Truncation keeps a leading part of the text, drops blanks before the mark, and nothing else that
      the limit has room for. */
  lemma TruncationForm(s: string, maxChars: int)
    requires 15 <= maxChars < |s|
    ensures exists k: nat :: k <= maxChars - 15 && CutsBlanks(s, k, maxChars - 15) && TruncateText(s, maxChars) == s[..k] + TRUNCATED
  {
    var head := s[..maxChars - 15];
    var k := |RStrip(head)|;
    RStripDropsBlanks(head);
    assert s[..k] == head[..k] == RStrip(head);
    assert forall i :: k <= i < maxChars - 15 ==> s[i] == head[i];
    assert CutsBlanks(s, k, maxChars - 15);
  }

  // --------------------------------------------------------- whole trees

  /** Values that are no container, and texts within the limit, are left as they are; a value JSON rejects
      becomes its text exactly where the code coerces it. */
  lemma BoundedLeaves(v: Json, l: Limits)
    ensures v.Null? || v.Bool? || v.Num? || (v.Str? && |v.s| <= l.maxChars) ==> Bounded(v, l) == v
    ensures v.Opaque? ==> Bounded(v, l) == if l.coerce then Str(v.text) else v
    ensures v.Obj? ==> Bounded(v, l).Obj? && |Bounded(v, l).fields| == Min(l.maxItems, |v.fields|)
    ensures v.Arr? ==> Bounded(v, l).Arr? && |Bounded(v, l).items| == Min(l.maxItems, |v.items|)
  {
    if v.Obj? {
      BoundedKeepsFirstFields(v.fields, l.maxItems, l);
    } else if v.Arr? {
      BoundedKeepsFirst(v.items, l.maxItems, l);
    }
  }

  /** A bounded container keeps its first children, in order, each bounded. */
  lemma {:induction false} BoundedKeepsFirst(items: seq<Json>, left: nat, l: Limits)
    ensures |BoundedItems(items, left, l)| == Min(left, |items|)
    ensures forall i :: 0 <= i < Min(left, |items|) ==> BoundedItems(items, left, l)[i] == Bounded(items[i], l)
  {
    if items != [] && left > 0 {
      BoundedKeepsFirst(items[1..], left - 1, l);
    }
  }

  lemma {:induction false} BoundedKeepsFirstFields(fields: seq<Field>, left: nat, l: Limits)
    ensures |BoundedFields(fields, left, l)| == Min(left, |fields|)
    ensures forall i :: 0 <= i < Min(left, |fields|) ==>
      BoundedFields(fields, left, l)[i] == Field(fields[i].key, Bounded(fields[i].value, l))
  {
    if fields != [] && left > 0 {
      BoundedKeepsFirstFields(fields[1..], left - 1, l);
    }
  }

  predicate ItemsWithin(items: seq<Json>, l: Limits)
    decreases items, 0
  {
    items == [] || (Within(items[0], l) && ItemsWithin(items[1..], l))
  }

  predicate FieldsWithin(fields: seq<Field>, l: Limits)
    decreases fields, 0
  {
    fields == [] || (Within(fields[0].value, l) && FieldsWithin(fields[1..], l))
  }

  /** At every depth: at most maxItems children per container, at most maxChars per string. */
  predicate Within(v: Json, l: Limits)
    decreases v, 1
  {
    match v
    case Obj(fields) => |fields| <= l.maxItems && FieldsWithin(fields, l)
    case Arr(items) => |items| <= l.maxItems && ItemsWithin(items, l)
    case Str(s) => |s| <= l.maxChars
    case _ => true
  }

  predicate ItemsCoerceLong(items: seq<Json>, left: nat, l: Limits)
    decreases items, 0
  {
    items != [] && left > 0 && (CoercesLong(items[0], l) || ItemsCoerceLong(items[1..], left - 1, l))
  }

  predicate FieldsCoerceLong(fields: seq<Field>, left: nat, l: Limits)
    decreases fields, 0
  {
    fields != [] && left > 0 && (CoercesLong(fields[0].value, l) || FieldsCoerceLong(fields[1..], left - 1, l))
  }

  /** Some value that survives the bounding is turned into text longer than the limit: the one place
      where the code does not truncate. */
  predicate CoercesLong(v: Json, l: Limits)
    decreases v, 1
  {
    match v
    case Obj(fields) => FieldsCoerceLong(fields, l.maxItems, l)
    case Arr(items) => ItemsCoerceLong(items, l.maxItems, l)
    case Opaque(text) => l.coerce && |text| > l.maxChars
    case _ => false
  }

  /** Bounding leaves every depth within the limits, and is idempotent, exactly when no overlong
      value is coerced to text. JSON values have none. */
  lemma {:induction false} BoundedWithinAndIdempotent(v: Json, l: Limits)
    requires l.maxChars >= 15
    ensures Within(Bounded(v, l), l) <==> !CoercesLong(v, l)
    ensures Bounded(Bounded(v, l), l) == Bounded(v, l) <==> !CoercesLong(v, l)
    decreases v, 1
  {
    match v
    case Obj(fields) => FieldsWithinAndIdempotent(fields, l.maxItems, l.maxItems, l);
    case Arr(items) => ItemsWithinAndIdempotent(items, l.maxItems, l.maxItems, l);
    case Str(s) => TruncatedLength(s, l.maxChars);
    case Opaque(text) => TruncatedLength(text, l.maxChars);
    case _ =>
  }

  lemma {:induction false} ItemsWithinAndIdempotent(items: seq<Json>, left: nat, again: nat, l: Limits)
    requires l.maxChars >= 15 && left <= again
    ensures |BoundedItems(items, left, l)| <= left
    ensures ItemsWithin(BoundedItems(items, left, l), l) <==> !ItemsCoerceLong(items, left, l)
    ensures BoundedItems(BoundedItems(items, left, l), again, l) == BoundedItems(items, left, l)
      <==> !ItemsCoerceLong(items, left, l)
    decreases items, 0
  {
    if items != [] && left > 0 {
      BoundedWithinAndIdempotent(items[0], l);
      ItemsWithinAndIdempotent(items[1..], left - 1, again - 1, l);
      var b := BoundedItems(items, left, l);
      assert b[1..] == BoundedItems(items[1..], left - 1, l);
      var bb := BoundedItems(b, again, l);
      assert bb[0] == Bounded(b[0], l) && bb[1..] == BoundedItems(b[1..], again - 1, l);
      assert bb == b <==> bb[0] == b[0] && bb[1..] == b[1..] by {
        assert b == [b[0]] + b[1..] && bb == [bb[0]] + bb[1..];
      }
    }
  }

  lemma {:induction false} FieldsWithinAndIdempotent(fields: seq<Field>, left: nat, again: nat, l: Limits)
    requires l.maxChars >= 15 && left <= again
    ensures |BoundedFields(fields, left, l)| <= left
    ensures FieldsWithin(BoundedFields(fields, left, l), l) <==> !FieldsCoerceLong(fields, left, l)
    ensures BoundedFields(BoundedFields(fields, left, l), again, l) == BoundedFields(fields, left, l)
      <==> !FieldsCoerceLong(fields, left, l)
    decreases fields, 0
  {
    if fields != [] && left > 0 {
      BoundedWithinAndIdempotent(fields[0].value, l);
      FieldsWithinAndIdempotent(fields[1..], left - 1, again - 1, l);
      var b := BoundedFields(fields, left, l);
      assert b[1..] == BoundedFields(fields[1..], left - 1, l);
      var bb := BoundedFields(b, again, l);
      assert bb[0] == Field(b[0].key, Bounded(b[0].value, l)) && bb[1..] == BoundedFields(b[1..], again - 1, l);
      assert bb == b <==> bb[0] == b[0] && bb[1..] == b[1..] by {
        assert b == [b[0]] + b[1..] && bb == [bb[0]] + bb[1..];
      }
    }
  }

  /** Bounding never makes the serialized text longer, whatever the tree. */
  lemma {:induction false} BoundedNeverGrows(v: Json, l: Limits, style: Style)
    requires l.maxChars >= 15
    ensures Size(Bounded(v, l), style) <= Size(v, style)
    decreases v, 1
  {
    match v
    case Obj(fields) => FieldsNeverGrow(fields, l.maxItems, l, style);
    case Arr(items) => ItemsNeverGrow(items, l.maxItems, l, style);
    case Str(s) => TruncationShrinks(s, l.maxChars, style);
    case _ =>
  }

  lemma {:induction false} ItemsNeverGrow(items: seq<Json>, left: nat, l: Limits, style: Style)
    requires l.maxChars >= 15
    ensures ItemsCost(BoundedItems(items, left, l), style) <= ItemsCost(items, style)
    decreases items, 0
  {
    if items != [] && left > 0 {
      BoundedNeverGrows(items[0], l, style);
      ItemsNeverGrow(items[1..], left - 1, l, style);
      assert BoundedItems(items, left, l)[1..] == BoundedItems(items[1..], left - 1, l);
    }
  }

  lemma {:induction false} FieldsNeverGrow(fields: seq<Field>, left: nat, l: Limits, style: Style)
    requires l.maxChars >= 15
    ensures FieldsCost(BoundedFields(fields, left, l), style) <= FieldsCost(fields, style)
    decreases fields, 0
  {
    if fields != [] && left > 0 {
      BoundedNeverGrows(fields[0].value, l, style);
      FieldsNeverGrow(fields[1..], left - 1, l, style);
      assert BoundedFields(fields, left, l)[1..] == BoundedFields(fields[1..], left - 1, l);
    }
  }

  function BoundedOption(v: Option<Json>, l: Limits): Option<Json> {
    if v.Some? then Some(Bounded(v.value, l)) else None
  }

  /** The summary form keeps every top-level key, in order, and bounds each value. */
  lemma {:induction false} SummaryKeepsKeys(fields: seq<Field>, l: Limits)
    ensures Keys(BoundedSummary(fields, l)) == Keys(fields)
    ensures forall key :: Lookup(BoundedSummary(fields, l), key) == BoundedOption(Lookup(fields, key), l)
  {
    if fields != [] {
      SummaryKeepsKeys(fields[1..], l);
      assert BoundedSummary(fields, l)[1..] == BoundedSummary(fields[1..], l);
    }
  }
}
