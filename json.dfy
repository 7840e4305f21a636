/** `JSON.stringify` applied to an array of strings, as the system prompt uses
    it to list the guild's custom emoji. */
module Json {
  import opened Text

  /** A character that `JSON.stringify` copies into a string literal as it is. */
  predicate PlainChar(c: char) {
    c != '"' && c != '\\' && c >= ' '
  }

  predicate Plain(s: string) {
    forall i :: 0 <= i < |s| ==> PlainChar(s[i])
  }

  function HexDigit(d: nat): char
    requires d < 16
  {
    "0123456789abcdef"[d]
  }

  /** The escape `JSON.stringify` writes for one character of a string. */
  function EscapeChar(c: char): (r: string)
    ensures PlainChar(c) ==> r == [c]
    ensures !PlainChar(c) ==> |r| >= 2 && r[0] == '\\'
  {
    if c == '"' then "\\\""
    else if c == '\\' then "\\\\"
    else if c as int == 0x08 then "\\b"
    else if c == '\t' then "\\t"
    else if c == '\n' then "\\n"
    else if c as int == 0x0C then "\\f"
    else if c == '\r' then "\\r"
    else if c < ' ' then "\\u00" + [HexDigit(c as int / 16), HexDigit(c as int % 16)]
    else [c]
  }

  /** The body of a JSON string literal for `s`. */
  function Escape(s: string): (r: string)
    ensures Plain(s) ==> r == s
    ensures |r| >= |s|
  {
    if s == [] then [] else EscapeChar(s[0]) + Escape(s[1..])
  }

  /** A JSON string literal. */
  function Quote(s: string): string {
    "\"" + Escape(s) + "\""
  }

  function QuoteAll(items: seq<string>): (r: seq<string>)
    ensures |r| == |items| && forall k :: 0 <= k < |items| ==> r[k] == Quote(items[k])
  {
    if items == [] then [] else [Quote(items[0])] + QuoteAll(items[1..])
  }

  /** `JSON.stringify(items)` for an array of strings. */
  function StringArray(items: seq<string>): string {
    "[" + JoinWith(QuoteAll(items), ",") + "]"
  }

  /** Every string of the array appears, quoted, in its JSON text. */
  lemma StringArrayLists(items: seq<string>, k: nat)
    requires k < |items|
    ensures Occurs(StringArray(items), Quote(items[k]))
  {
    JoinWithLists(QuoteAll(items), ",", k);
    OccursWithin("[", JoinWith(QuoteAll(items), ","), "]", Quote(items[k]));
  }
}
