/**
 JSON texts in the grammar of RFC 8259: every choice of whitespace, escapes and
 nesting is kept, so rendering a value of these types reaches every JSON text.
 */
module JsonText {
  import opened Wrappers

  /** One character of a string body, section 7: plain, `\c`, or `\uXXXX`. */
  datatype StringItem =
    | Plain(c: char)
    | Escape(c: char)
    | Unicode(hex: string)
  {
    predicate Valid() {
      match this
      case Plain(c) => c != '"' && c != '\\'
      case Escape(c) => c in "\"\\/bfnrt"
      case Unicode(hex) => |hex| == 4 && forall i :: 0 <= i < 4 ==> IsHexDigit(hex[i])
    }

    function Render(): string {
      match this
      case Plain(c) => [c]
      case Escape(c) => ['\\', c]
      case Unicode(hex) => ['\\', 'u'] + hex
    }
  }

  /** Word covers numbers and the three literals. */
  datatype Value =
    | Word(chars: string)
    | Str(items: seq<StringItem>)
    | Array(elements: Elements)
    | Object(members: Members)

  datatype Elements =
    | NoElements(space: string)
    | Element(before: string, value: Value, after: string, rest: Option<Elements>)

  datatype Members =
    | NoMembers(space: string)
    | Member(before: string, key: seq<StringItem>, beforeColon: string, afterColon: string,
             value: Value, after: string, rest: Option<Members>)

  predicate IsWordChar(c: char) {
    '0' <= c <= '9' || 'a' <= c <= 'z' || 'A' <= c <= 'Z' || c in "+-."
  }

  predicate IsSpace(s: string) {
    forall i :: 0 <= i < |s| ==> s[i] in " \t\n\r"
  }

  predicate ValidItems(items: seq<StringItem>) {
    forall i :: 0 <= i < |items| ==> items[i].Valid()
  }

  predicate ValidValue(v: Value) {
    match v
    case Word(chars) => forall i :: 0 <= i < |chars| ==> IsWordChar(chars[i])
    case Str(items) => ValidItems(items)
    case Array(elements) => ValidElements(elements)
    case Object(members) => ValidMembers(members)
  }

  predicate ValidElements(e: Elements) {
    match e
    case NoElements(space) => IsSpace(space)
    case Element(before, value, after, rest) =>
      && IsSpace(before) && ValidValue(value) && IsSpace(after)
      && (rest.Some? ==> rest.value.Element? && ValidElements(rest.value))
  }

  predicate ValidMembers(m: Members) {
    match m
    case NoMembers(space) => IsSpace(space)
    case Member(before, key, beforeColon, afterColon, value, after, rest) =>
      && IsSpace(before) && ValidItems(key) && IsSpace(beforeColon) && IsSpace(afterColon)
      && ValidValue(value) && IsSpace(after)
      && (rest.Some? ==> rest.value.Member? && ValidMembers(rest.value))
  }

  function RenderItems(items: seq<StringItem>): string {
    if items == [] then [] else RenderItems(items[..|items| - 1]) + items[|items| - 1].Render()
  }

  function RenderString(items: seq<StringItem>): string {
    "\"" + RenderItems(items) + "\""
  }

  function Render(v: Value): string {
    match v
    case Word(chars) => chars
    case Str(items) => RenderString(items)
    case Array(elements) => "[" + RenderElements(elements) + "]"
    case Object(members) => "{" + RenderMembers(members) + "}"
  }

  function RenderElements(e: Elements): string {
    match e
    case NoElements(space) => space
    case Element(before, value, after, rest) =>
      before + Render(value) + after
      + (match rest case None => [] case Some(more) => "," + RenderElements(more))
  }

  function RenderMembers(m: Members): string {
    match m
    case NoMembers(space) => space
    case Member(before, key, beforeColon, afterColon, value, after, rest) =>
      before + RenderString(key) + beforeColon + ":" + afterColon + Render(value) + after
      + (match rest case None => [] case Some(more) => "," + RenderMembers(more))
  }
}
