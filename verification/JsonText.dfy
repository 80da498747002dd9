/** The serialized text whose length the budgets count (json.dumps, and pydantic's model_dump_json). */
module JsonText {
  import opened Common
  import opened Json

  function HexDigit(n: nat): char
    requires n < 16
  {
    "0123456789abcdef"[n]
  }

  /** A four-digit escape (section 7 of RFC 8259). */
  function Unicode(n: nat): (r: string)
    requires n < 0x1_0000
    ensures |r| == 6
  {
    ['\\', 'u', HexDigit(n / 4096), HexDigit(n / 256 % 16), HexDigit(n / 16 % 16), HexDigit(n % 16)]
  }

  /** What stands for a character inside quotes; outside the basic plane, a surrogate pair. */
  function Escaped(c: char, style: Style): string {
    if c == '"' then ['\\', '"']
    else if c == '\\' then ['\\', '\\']
    else if c == '\n' then ['\\', 'n']
    else if c == '\r' then ['\\', 'r']
    else if c == '\t' then ['\\', 't']
    else if c == '\U{0008}' then ['\\', 'b']
    else if c == '\U{000C}' then ['\\', 'f']
    else if c < ' ' then Unicode(c as int)
    else if style.Compact? || c <= '~' then [c]
    else if c <= '\U{FFFF}' then Unicode(c as int)
    else
      var rest := c as int - 0x1_0000;
      Unicode(0xD800 + rest / 0x400) + Unicode(0xDC00 + rest % 0x400)
  }

  function EscapedText(s: string, style: Style): string {
    if s == [] then [] else EscapedText(s[..|s| - 1], style) + Escaped(s[|s| - 1], style)
  }

  function Quoted(s: string, style: Style): string {
    "\"" + EscapedText(s, style) + "\""
  }

  function Separator(style: Style): string {
    if style.Dumps? then ", " else ","
  }

  function Colon(style: Style): string {
    if style.Dumps? then ": " else ":"
  }

  function ItemTexts(items: seq<Json>, style: Style): (r: seq<string>)
    ensures |r| == |items|
    decreases items, 0
  {
    if items == [] then [] else [TextOf(items[0], style)] + ItemTexts(items[1..], style)
  }

  function FieldTexts(fields: seq<Field>, style: Style): (r: seq<string>)
    ensures |r| == |fields|
    decreases fields, 0
  {
    if fields == [] then []
    else [Quoted(fields[0].key, style) + Colon(style) + TextOf(fields[0].value, style)] + FieldTexts(fields[1..], style)
  }

  /** The serialized text, fields in their own order; a value JSON rejects is written as its `str()`. */
  function TextOf(v: Json, style: Style): string
    decreases v, 1
  {
    match v
    case Null => "null"
    case Bool(b) => if b then "true" else "false"
    case Num(text) => text
    case Str(s) => Quoted(s, style)
    case Opaque(text) => Quoted(text, style)
    case Arr(items) => "[" + Join(ItemTexts(items, style), Separator(style)) + "]"
    case Obj(fields) => "{" + Join(FieldTexts(fields, style), Separator(style)) + "}"
  }

  lemma EscapedLength(c: char, style: Style)
    ensures |Escaped(c, style)| == CharCost(c, style)
  {
  }

  lemma {:induction false} QuotedLength(s: string, style: Style)
    ensures |EscapedText(s, style)| == TextCost(s, style)
    ensures |Quoted(s, style)| == TextSize(s, style)
  {
    if s != [] {
      QuotedLength(s[..|s| - 1], style);
      EscapedLength(s[|s| - 1], style);
    }
  }

  /** Every text with its separator. */
  function Lengths(texts: seq<string>, separator: nat): nat {
    if texts == [] then 0 else |texts[0]| + separator + Lengths(texts[1..], separator)
  }

  lemma {:induction false} JoinLength(texts: seq<string>, separator: string)
    ensures |Join(texts, separator)| == if texts == [] then 0 else Lengths(texts, |separator|) - |separator|
  {
    if |texts| > 1 {
      JoinLength(texts[1..], separator);
    }
  }

  lemma {:induction false} ItemsLength(items: seq<Json>, style: Style)
    ensures Lengths(ItemTexts(items, style), SeparatorSize(style)) == ItemsCost(items, style)
    decreases items, 0
  {
    if items != [] {
      SizeIsLength(items[0], style);
      ItemsLength(items[1..], style);
      assert ItemTexts(items, style)[1..] == ItemTexts(items[1..], style);
    }
  }

  lemma {:induction false} FieldsLength(fields: seq<Field>, style: Style)
    ensures Lengths(FieldTexts(fields, style), SeparatorSize(style)) == FieldsCost(fields, style)
    decreases fields, 0
  {
    if fields != [] {
      SizeIsLength(fields[0].value, style);
      QuotedLength(fields[0].key, style);
      FieldsLength(fields[1..], style);
      assert FieldTexts(fields, style)[1..] == FieldTexts(fields[1..], style);
    }
  }

  /** The size every budget counts is the length of the serialized text, for every tree and both styles. */
  lemma {:induction false} SizeIsLength(v: Json, style: Style)
    ensures |TextOf(v, style)| == Size(v, style)
    decreases v, 1
  {
    match v
    case Str(s) => QuotedLength(s, style);
    case Opaque(text) => QuotedLength(text, style);
    case Arr(items) =>
      ItemsLength(items, style);
      JoinLength(ItemTexts(items, style), Separator(style));
    case Obj(fields) =>
      FieldsLength(fields, style);
      JoinLength(FieldTexts(fields, style), Separator(style));
    case _ =>
  }
}
