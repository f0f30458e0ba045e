/**
 Recovering a JSON object from a model's reply: `extract_json_object` and what it
 returns, on any text and on a reply that wraps an object in prose.
 */
module JsonScanner {
  import opened Wrappers
  import JsonText

  /** Whether a position lies outside strings, inside one, or just after a backslash in one. */
  datatype Mode = Outside | Inside | Escaped

  function NextMode(m: Mode, c: char): Mode {
    match m
    case Outside => if c == '"' then Inside else Outside
    case Inside => if c == '\\' then Escaped else if c == '"' then Outside else Inside
    case Escaped => Inside
  }

  function ModeAfter(m: Mode, text: string): Mode {
    if text == [] then m else NextMode(ModeAfter(m, text[..|text| - 1]), text[|text| - 1])
  }

  /** The characters of `text` that are not part of any string. */
  function OutsideStrings(m: Mode, text: string): string {
    if text == [] then []
    else
      var init, c := text[..|text| - 1], text[|text| - 1];
      if ModeAfter(m, init) == Outside then OutsideStrings(m, init) + [c] else OutsideStrings(m, init)
  }

  /** Structural braces opened in `text` and not closed in it. */
  function Nesting(m: Mode, text: string): int {
    var s := multiset(OutsideStrings(m, text));
    s['{'] as int - s['}'] as int
  }

  /**
   text[lo..hi] is what extraction means: it starts at the first opening brace and
   is the shortest stretch from there whose braces outside strings balance.
   */
  ghost predicate IsExtraction(text: string, lo: int, hi: int) {
    && 0 <= lo < hi <= |text|
    && text[lo] == '{' && (forall i :: 0 <= i < lo ==> text[i] != '{')
    && Nesting(Outside, text[lo..hi]) == 0
    && forall k :: lo < k < hi ==> Nesting(Outside, text[lo..k]) != 0
  }

  lemma StepOfNesting(m: Mode, text: string, c: char)
    ensures ModeAfter(m, text + [c]) == NextMode(ModeAfter(m, text), c)
    ensures Nesting(m, text + [c]) == Nesting(m, text)
      + (if ModeAfter(m, text) != Outside then 0 else if c == '{' then 1 else if c == '}' then -1 else 0)
  {
    assert (text + [c])[..|text|] == text;
  }

  ghost function Extracted(text: string): Option<string> {
    if exists lo, hi :: IsExtraction(text, lo, hi) then
      var lo, hi :| IsExtraction(text, lo, hi);
      Some(text[lo..hi])
    else None
  }

  method ExtractJsonObject(text: string) returns (r: Option<string>)
    ensures r == Extracted(text)
  {
    var start := 0;
    while start < |text| && text[start] != '{'
      invariant 0 <= start <= |text| && forall i :: 0 <= i < start ==> text[i] != '{'
    {
      start := start + 1;
    }
    if start == |text| {
      return None;
    }
    r := ScanObject(text, start);
  }

  /** No stretch from `start` of up to `n` characters balances. */
  ghost predicate OpenUpTo(text: string, start: nat, n: nat)
    requires start + n <= |text|
  {
    forall k :: start < k <= start + n ==> Nesting(Outside, text[start..k]) != 0
  }

  method ScanObject(text: string, start: nat) returns (r: Option<string>)
    requires start < |text| && text[start] == '{' && forall i :: 0 <= i < start ==> text[i] != '{'
    ensures r == Extracted(text)
  {
    var depth, inString, escaped := 0, false, false;
    for offset := 0 to |text| - start
      invariant depth == Nesting(Outside, text[start..start + offset])
      invariant var m := ModeAfter(Outside, text[start..start + offset]);
        inString == (m != Outside) && escaped == (m == Escaped)
      invariant offset == 0 ==> depth == 0 && !inString
      invariant offset > 0 ==> depth > 0
      invariant OpenUpTo(text, start, offset)
    {
      var ch := text[start + offset];
      ReadOne(text, start, offset);
      if inString {
        if escaped {
          escaped := false;
        } else if ch == '\\' {
          escaped := true;
        } else if ch == '"' {
          inString := false;
        }
        continue;
      }
      match ch {
        case '"' => inString := true;
        case '{' => depth := depth + 1;
        case '}' =>
          depth := depth - 1;
          if depth == 0 {
            ExtractionIsUnique(text, start, start + offset + 1);
            return Some(text[start..start + offset + 1]);
          }
        case _ =>
      }
    }
    NothingBalances(text, start);
    return None;
  }

  lemma ReadOne(text: string, start: nat, offset: nat)
    requires start + offset < |text|
    ensures var before, c := text[start..start + offset], text[start + offset];
      var m, after := ModeAfter(Outside, before), text[start..start + offset + 1];
      && ModeAfter(Outside, after) == NextMode(m, c)
      && Nesting(Outside, after) == Nesting(Outside, before)
         + (if m != Outside then 0 else if c == '{' then 1 else if c == '}' then -1 else 0)
      && (OpenUpTo(text, start, offset) && Nesting(Outside, after) != 0 ==> OpenUpTo(text, start, offset + 1))
  {
    var before, c := text[start..start + offset], text[start + offset];
    assert text[start..start + offset + 1] == before + [c];
    StepOfNesting(Outside, before, c);
  }

  lemma NothingBalances(text: string, start: nat)
    requires start < |text| && text[start] == '{' && forall i :: 0 <= i < start ==> text[i] != '{'
    requires OpenUpTo(text, start, |text| - start)
    ensures Extracted(text) == None
  {
    forall lo, hi ensures !IsExtraction(text, lo, hi) {
      if lo == start && start < hi <= |text| {
        assert Nesting(Outside, text[start..hi]) != 0;
      }
    }
  }

  lemma ExtractionIsUnique(text: string, lo: int, hi: int)
    requires IsExtraction(text, lo, hi)
    ensures forall lo', hi' :: IsExtraction(text, lo', hi') ==> lo == lo' && hi == hi'
    ensures Extracted(text) == Some(text[lo..hi])
  {
    forall lo', hi' | IsExtraction(text, lo', hi') ensures lo == lo' && hi == hi' {
      assert lo == lo';
    }
  }

  // --- texts that open and close their own braces and strings ---

  /** The lowest nesting reached by any prefix of `text`. */
  function Lowest(m: Mode, text: string): int {
    if text == [] then 0
    else
      var before, now := Lowest(m, text[..|text| - 1]), Nesting(m, text);
      if now < before then now else before
  }

  lemma {:induction false} LowestBoundsPrefixes(m: Mode, text: string, k: nat)
    requires k <= |text|
    ensures Lowest(m, text) <= Nesting(m, text[..k])
  {
    if k == |text| {
      assert text[..k] == text;
      assert text == [] ==> Nesting(m, text) == 0;
    } else {
      assert text[..|text| - 1][..k] == text[..k];
      LowestBoundsPrefixes(m, text[..|text| - 1], k);
    }
  }

  lemma {:induction false} Concatenation(m: Mode, a: string, b: string)
    ensures var m' := ModeAfter(m, a);
      && ModeAfter(m, a + b) == ModeAfter(m', b)
      && Nesting(m, a + b) == Nesting(m, a) + Nesting(m', b)
      && (Lowest(m, a) <= Nesting(m, a) + Lowest(m', b) ==> Lowest(m, a + b) == Lowest(m, a))
      && (Lowest(m, a) > Nesting(m, a) + Lowest(m', b) ==> Lowest(m, a + b) == Nesting(m, a) + Lowest(m', b))
  {
    if b == [] {
      assert a + b == a;
      LowestBoundsPrefixes(m, a, |a|);
      assert a[..|a|] == a;
    } else {
      var init, c := b[..|b| - 1], b[|b| - 1];
      assert a + b == (a + init) + [c] && b == init + [c] && (a + b)[..|a + b| - 1] == a + init;
      Concatenation(m, a, init);
      StepOfNesting(m, a + init, c);
      StepOfNesting(ModeAfter(m, a), init, c);
    }
  }

  /** Reading `text` from mode `m` ends in `m`, balanced, closing only braces it opened. */
  predicate Closed(m: Mode, text: string) {
    ModeAfter(m, text) == m && Nesting(m, text) == 0 && Lowest(m, text) == 0
  }

  lemma ClosedConcat(m: Mode, a: string, b: string)
    requires Closed(m, a) && Closed(m, b)
    ensures Closed(m, a + b)
  {
    Concatenation(m, a, b);
  }

  lemma SingleCharacter(m: Mode, c: char)
    ensures ModeAfter(m, [c]) == NextMode(m, c)
    ensures Nesting(m, [c]) == if m != Outside then 0 else if c == '{' then 1 else if c == '}' then -1 else 0
    ensures Lowest(m, [c]) == if Nesting(m, [c]) < 0 then -1 else 0
  {
    StepOfNesting(m, [], c);
    assert [] + [c] == [c] && [c][..0] == [];
  }

  /** Text without quotes and braces. */
  predicate Neutral(text: string) {
    forall i :: 0 <= i < |text| ==> text[i] !in "\"{}"
  }

  lemma {:induction false} NeutralIsClosed(text: string)
    requires Neutral(text)
    ensures Closed(Outside, text)
  {
    if text != [] {
      var init, c := text[..|text| - 1], text[|text| - 1];
      NeutralIsClosed(init);
      SingleCharacter(Outside, c);
      ClosedConcat(Outside, init, [c]);
      assert text == init + [c];
    }
  }

  /** A string body never leaves the string, whatever braces and escaped quotes it holds. */
  lemma {:induction false} BodyStaysInside(items: seq<JsonText.StringItem>)
    requires JsonText.ValidItems(items)
    ensures Closed(Inside, JsonText.RenderItems(items))
  {
    if items != [] {
      var init, last := items[..|items| - 1], items[|items| - 1];
      BodyStaysInside(init);
      ItemStaysInside(last);
      ClosedConcat(Inside, JsonText.RenderItems(init), last.Render());
    }
  }

  lemma {:induction false} PlainStaysInside(text: string)
    requires forall i :: 0 <= i < |text| ==> text[i] !in "\"\\"
    ensures Closed(Inside, text)
  {
    if text != [] {
      var init, c := text[..|text| - 1], text[|text| - 1];
      PlainStaysInside(init);
      SingleCharacter(Inside, c);
      ClosedConcat(Inside, init, [c]);
      assert text == init + [c];
    }
  }

  lemma EscapePairStaysInside(c: char)
    ensures Closed(Inside, ['\\', c])
  {
    SingleCharacter(Inside, '\\');
    SingleCharacter(Escaped, c);
    Concatenation(Inside, ['\\'], [c]);
    assert ['\\'] + [c] == ['\\', c];
  }

  lemma ItemStaysInside(item: JsonText.StringItem)
    requires item.Valid()
    ensures Closed(Inside, item.Render())
  {
    match item
    case Plain(c) => PlainStaysInside([c]);
    case Escape(c) => EscapePairStaysInside(c);
    case Unicode(hex) =>
      EscapePairStaysInside('u');
      PlainStaysInside(hex);
      ClosedConcat(Inside, ['\\', 'u'], hex);
  }

  lemma StringIsClosed(items: seq<JsonText.StringItem>)
    requires JsonText.ValidItems(items)
    ensures Closed(Outside, JsonText.RenderString(items))
  {
    var body := JsonText.RenderItems(items);
    var q := ['"'];
    BodyStaysInside(items);
    SingleCharacter(Outside, '"');
    SingleCharacter(Inside, '"');
    Concatenation(Outside, q, body);
    Concatenation(Outside, q + body, q);
    assert JsonText.RenderString(items) == q + body + q;
  }

  lemma BracedIsClosed(inner: string)
    requires Closed(Outside, inner)
    ensures Closed(Outside, "{" + inner + "}")
    ensures forall k: nat :: 0 < k < |inner| + 2 ==> 0 < Nesting(Outside, ("{" + inner + "}")[..k])
  {
    SingleCharacter(Outside, '{');
    SingleCharacter(Outside, '}');
    var open := ['{'] + inner;
    Concatenation(Outside, ['{'], inner);
    Concatenation(Outside, open, ['}']);
    assert "{" + inner + "}" == open + ['}'];
    forall k: nat | 0 < k < |inner| + 2 ensures 0 < Nesting(Outside, ("{" + inner + "}")[..k]) {
      assert ("{" + inner + "}")[..k] == ['{'] + inner[..k - 1];
      Concatenation(Outside, ['{'], inner[..k - 1]);
      LowestBoundsPrefixes(Outside, inner, k - 1);
    }
  }

  lemma {:induction false} ValueIsClosed(v: JsonText.Value)
    requires JsonText.ValidValue(v)
    ensures Closed(Outside, JsonText.Render(v))
    decreases v
  {
    match v
    case Word(chars) => NeutralIsClosed(chars);
    case Str(items) => StringIsClosed(items);
    case Array(elements) =>
      var inner := JsonText.RenderElements(elements);
      ElementsAreClosed(elements);
      NeutralIsClosed("[");
      NeutralIsClosed("]");
      ClosedConcat(Outside, "[", inner);
      ClosedConcat(Outside, "[" + inner, "]");
    case Object(members) =>
      MembersAreClosed(members);
      BracedIsClosed(JsonText.RenderMembers(members));
  }

  lemma SpaceIsClosed(s: string)
    requires JsonText.IsSpace(s)
    ensures Closed(Outside, s)
  {
    NeutralIsClosed(s);
  }

  lemma AfterComma(more: string)
    requires Closed(Outside, more)
    ensures Closed(Outside, "," + more)
  {
    NeutralIsClosed(",");
    ClosedConcat(Outside, ",", more);
  }

  lemma {:induction false} ElementsAreClosed(e: JsonText.Elements)
    requires JsonText.ValidElements(e)
    ensures Closed(Outside, JsonText.RenderElements(e))
    decreases e
  {
    match e
    case NoElements(space) => SpaceIsClosed(space);
    case Element(before, value, after, rest) =>
      ValueIsClosed(value);
      if rest.Some? {
        ElementsAreClosed(rest.value);
        AfterComma(JsonText.RenderElements(rest.value));
        OneElement(e, "," + JsonText.RenderElements(rest.value));
      } else {
        OneElement(e, []);
      }
  }

  lemma OneElement(e: JsonText.Elements, tail: string)
    requires e.Element? && JsonText.ValidElements(e)
    requires Closed(Outside, JsonText.Render(e.value)) && Closed(Outside, tail)
    requires JsonText.RenderElements(e) == e.before + JsonText.Render(e.value) + e.after + tail
    ensures Closed(Outside, JsonText.RenderElements(e))
  {
    SpaceIsClosed(e.before);
    SpaceIsClosed(e.after);
    ClosedConcat4(e.before, JsonText.Render(e.value), e.after, tail);
  }

  lemma {:induction false} MembersAreClosed(m: JsonText.Members)
    requires JsonText.ValidMembers(m)
    ensures Closed(Outside, JsonText.RenderMembers(m))
    decreases m
  {
    match m
    case NoMembers(space) => SpaceIsClosed(space);
    case Member(before, key, beforeColon, afterColon, value, after, rest) =>
      ValueIsClosed(value);
      if rest.Some? {
        MembersAreClosed(rest.value);
        AfterComma(JsonText.RenderMembers(rest.value));
        OneMember(m, "," + JsonText.RenderMembers(rest.value));
      } else {
        OneMember(m, []);
      }
  }

  lemma OneMember(m: JsonText.Members, tail: string)
    requires m.Member? && JsonText.ValidMembers(m)
    requires Closed(Outside, JsonText.Render(m.value)) && Closed(Outside, tail)
    requires JsonText.RenderMembers(m)
      == m.before + JsonText.RenderString(m.key) + m.beforeColon + ":" + m.afterColon
         + JsonText.Render(m.value) + m.after + tail
    ensures Closed(Outside, JsonText.RenderMembers(m))
  {
    var key := JsonText.RenderString(m.key);
    StringIsClosed(m.key);
    SpaceIsClosed(m.before);
    SpaceIsClosed(m.beforeColon);
    NeutralIsClosed(":");
    SpaceIsClosed(m.afterColon);
    SpaceIsClosed(m.after);
    var named := m.before + key + m.beforeColon + ":";
    ClosedConcat4(m.before, key, m.beforeColon, ":");
    ClosedConcat4(named, m.afterColon, JsonText.Render(m.value), m.after);
    ClosedConcat(Outside, named + m.afterColon + JsonText.Render(m.value) + m.after, tail);
  }

  lemma ClosedConcat4(a: string, b: string, c: string, d: string)
    requires Closed(Outside, a) && Closed(Outside, b) && Closed(Outside, c) && Closed(Outside, d)
    ensures Closed(Outside, a + b + c + d)
  {
    ClosedConcat(Outside, a, b);
    ClosedConcat(Outside, a + b, c);
    ClosedConcat(Outside, a + b + c, d);
  }

  /**
   Any object of RFC 8259, wrapped in any prose and followed by anything, is
   extracted exactly when the prose itself has no opening brace.
   */
  lemma ObjectIsRecovered(prose: string, members: JsonText.Members, anything: string)
    requires JsonText.ValidMembers(members)
    ensures var printed := JsonText.Render(JsonText.Object(members));
      IsExtraction(prose + printed + anything, |prose|, |prose| + |printed|) <==> '{' !in prose
  {
    var inner := JsonText.RenderMembers(members);
    MembersAreClosed(members);
    BracedIsRecovered(prose, inner, anything);
  }

  lemma ObjectIsExtracted(prose: string, members: JsonText.Members, anything: string)
    requires JsonText.ValidMembers(members) && '{' !in prose
    ensures Extracted(prose + JsonText.Render(JsonText.Object(members)) + anything)
         == Some(JsonText.Render(JsonText.Object(members)))
  {
    var printed := JsonText.Render(JsonText.Object(members));
    var text := prose + printed + anything;
    ObjectIsRecovered(prose, members, anything);
    ExtractionIsUnique(text, |prose|, |prose| + |printed|);
    assert text[|prose|..|prose| + |printed|] == printed;
  }

  lemma BracedIsRecovered(prose: string, inner: string, anything: string)
    requires Closed(Outside, inner)
    ensures var printed := "{" + inner + "}";
      IsExtraction(prose + printed + anything, |prose|, |prose| + |printed|) <==> '{' !in prose
  {
    var printed := "{" + inner + "}";
    var text := prose + printed + anything;
    BracedIsClosed(inner);
    assert text[..|prose|] == prose && text[|prose|] == '{';
    assert text[|prose|..|prose| + |printed|] == printed;
    assert forall i :: 0 <= i < |prose| ==> text[i] == prose[i];
    OpensUntilTheEnd(prose, inner, anything);
  }

  lemma OpensUntilTheEnd(prose: string, inner: string, anything: string)
    requires Closed(Outside, inner)
    ensures var text, end := prose + ("{" + inner + "}") + anything, |prose| + |inner| + 2;
      forall k :: |prose| < k < end ==> Nesting(Outside, text[|prose|..k]) != 0
  {
    var printed := "{" + inner + "}";
    var text := prose + printed + anything;
    BracedIsClosed(inner);
    forall k | |prose| < k < |prose| + |printed| ensures Nesting(Outside, text[|prose|..k]) != 0 {
      assert text[|prose|..k] == printed[..k - |prose|];
    }
  }
}
