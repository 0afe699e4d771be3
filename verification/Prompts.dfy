/**
 The prompt envelopes: JSON in which no markup character survives, between markup delimiters.
 */
module Prompts {
  import opened Results
  import opened Json

  /** `str.replace` of one character. */
  function Replace(s: string, c: char, to: string): string {
    if s == "" then "" else (if s[0] == c then to else [s[0]]) + Replace(s[1..], c, to)
  }

  function EscapeMarkup(s: string): string {
    Replace(Replace(Replace(s, '&', "\\u0026"), '<', "\\u003c"), '>', "\\u003e")
  }

  /** `_json_for_delimited_prompt`. */
  function JsonForDelimitedPrompt(v: Value): string {
    EscapeMarkup(Dumps(v, INDENTED))
  }

  predicate NoMarkup(s: string) {
    forall k :: 0 <= k < |s| ==> s[k] !in {'&', '<', '>'}
  }

  lemma {:induction false} ReplaceConcat(a: string, b: string, c: char, to: string)
    ensures Replace(a + b, c, to) == Replace(a, c, to) + Replace(b, c, to)
  {
    if a == "" {
      assert a + b == b;
    } else {
      assert (a + b)[1..] == a[1..] + b;
      ReplaceConcat(a[1..], b, c, to);
    }
  }

  lemma {:induction false} ReplaceLeaves(s: string, c: char, to: string, other: char)
    requires forall k :: 0 <= k < |to| ==> to[k] != other
    requires c == other || forall k :: 0 <= k < |s| ==> s[k] != other
    ensures forall k :: 0 <= k < |Replace(s, c, to)| ==> Replace(s, c, to)[k] != other
  {
    if s != "" {
      ReplaceLeaves(s[1..], c, to, other);
    }
  }

  /** No text at all keeps a markup character: the later replacements do not undo the earlier ones. */
  lemma EscapedHasNoMarkup(s: string)
    ensures NoMarkup(EscapeMarkup(s))
  {
    var a := Replace(s, '&', "\\u0026");
    ReplaceLeaves(s, '&', "\\u0026", '&');
    var b := Replace(a, '<', "\\u003c");
    ReplaceLeaves(a, '<', "\\u003c", '<');
    ReplaceLeaves(a, '<', "\\u003c", '&');
    ReplaceLeaves(b, '>', "\\u003e", '>');
    ReplaceLeaves(b, '>', "\\u003e", '<');
    ReplaceLeaves(b, '>', "\\u003e", '&');
  }

  lemma EscapeConcat(a: string, b: string)
    ensures EscapeMarkup(a + b) == EscapeMarkup(a) + EscapeMarkup(b)
  {
    ReplaceConcat(a, b, '&', "\\u0026");
    var (x, y) := (Replace(a, '&', "\\u0026"), Replace(b, '&', "\\u0026"));
    ReplaceConcat(x, y, '<', "\\u003c");
    ReplaceConcat(Replace(x, '<', "\\u003c"), Replace(y, '<', "\\u003c"), '>', "\\u003e");
  }

  lemma {:induction false} ReplaceNothing(s: string, c: char, to: string)
    requires forall k :: 0 <= k < |s| ==> s[k] != c
    ensures Replace(s, c, to) == s
  {
    if s != "" {
      ReplaceNothing(s[1..], c, to);
      assert s == [s[0]] + s[1..];
    }
  }

  lemma EscapeLeavesClean(s: string)
    requires NoMarkup(s)
    ensures EscapeMarkup(s) == s
  {
    ReplaceNothing(s, '&', "\\u0026");
    ReplaceNothing(s, '<', "\\u003c");
    ReplaceNothing(s, '>', "\\u003e");
  }

  lemma CleanPrefix(a: string, b: string)
    requires NoMarkup(a)
    ensures EscapeMarkup(a + b) == a + EscapeMarkup(b)
  {
    EscapeConcat(a, b);
    EscapeLeavesClean(a);
  }

  lemma ReplaceOne(c: char, to: string)
    ensures Replace([c], c, to) == to
  {
    assert [c][1..] == "";
  }

  lemma MarkupEscapes()
    ensures EscapeChar('&', Delimited) == "\\u0026" && EscapeChar('<', Delimited) == "\\u003c"
    ensures EscapeChar('>', Delimited) == "\\u003e"
    ensures EscapeChar('&', Readable) == "&" && EscapeChar('<', Readable) == "<" && EscapeChar('>', Readable) == ">"
  {
  }

  lemma MarkupReplaced()
    ensures EscapeMarkup("&") == "\\u0026" && EscapeMarkup("<") == "\\u003c" && EscapeMarkup(">") == "\\u003e"
  {
    ReplaceOne('&', "\\u0026");
    ReplaceOne('<', "\\u003c");
    ReplaceOne('>', "\\u003e");
    hide Replace;
    ReplaceNothing("\\u0026", '<', "\\u003c");
    ReplaceNothing("\\u0026", '>', "\\u003e");
    ReplaceNothing("<", '&', "\\u0026");
    ReplaceNothing("\\u003c", '>', "\\u003e");
    ReplaceNothing(">", '&', "\\u0026");
    ReplaceNothing(">", '<', "\\u003c");
  }

  lemma OtherEscapes(c: char)
    requires c !in {'&', '<', '>'}
    ensures NoMarkup(EscapeChar(c, Readable)) && EscapeChar(c, Readable) == EscapeChar(c, Delimited)
  {
  }

  /** Replacing markup in the readable form of a character gives its delimited form. */
  lemma EscapedChar(c: char)
    ensures EscapeMarkup(EscapeChar(c, Readable)) == EscapeChar(c, Delimited)
  {
    hide EscapeMarkup, EscapeChar;
    if c in {'&', '<', '>'} {
      MarkupEscapes();
      MarkupReplaced();
    } else {
      OtherEscapes(c);
      EscapeLeavesClean(EscapeChar(c, Readable));
    }
  }

  lemma {:induction false} EscapedText(text: string, after: string)
    ensures EscapeMarkup(PrintText(text, Readable, after)) == PrintText(text, Delimited, EscapeMarkup(after))
  {
    hide EscapeMarkup, EscapeChar;
    if text != "" {
      EscapedText(text[1..], after);
      EscapedChar(text[0]);
      EscapeConcat(EscapeChar(text[0], Readable), PrintText(text[1..], Readable, after));
    }
  }

  lemma EscapedQuoted(text: string, after: string)
    ensures EscapeMarkup(Quoted(text, Readable, after)) == Quoted(text, Delimited, EscapeMarkup(after))
  {
    hide EscapeMarkup;
    CleanPrefix("\"", PrintText(text, Readable, "\"" + after));
    EscapedText(text, "\"" + after);
    CleanPrefix("\"", after);
  }

  function DelimitedStyle(style: Style): Style {
    style.(mode := Delimited)
  }

  /**
   Replacing characters in the finished text is the same as escaping them inside its strings:
   nothing else of the text contains them.
   */
  lemma {:induction false} EscapedPrint(v: Value, style: Style, level: nat, after: string, reader: Reader)
    requires Valid(v, reader) && Writes(style) && style.mode.Readable?
    ensures EscapeMarkup(Print(v, style, level, after)) == Print(v, DelimitedStyle(style), level, EscapeMarkup(after))
  {
    hide EscapeMarkup;
    BreakIsBlank(style, level, "");
    BreakIsBlank(style, level + 1, "");
    match v
    case Scalar(t) => CleanPrefix(t, after);
    case Str(text) => EscapedQuoted(text, after);
    case Array(items) =>
      var end := Break(style, level) + ("]" + after);
      CleanPrefix("]", after);
      CleanPrefix(Break(style, level), "]" + after);
      if items.NoItems? {
        CleanPrefix("[", "]" + after);
      } else {
        var inner := PrintItems(items, style, level + 1, end);
        EscapedItems(items, style, level + 1, end, reader);
        CleanPrefix(Break(style, level + 1), inner);
        CleanPrefix("[", Break(style, level + 1) + inner);
      }
    case Object(members) =>
      var end := Break(style, level) + ("}" + after);
      CleanPrefix("}", after);
      CleanPrefix(Break(style, level), "}" + after);
      if members.NoMembers? {
        CleanPrefix("{", "}" + after);
      } else {
        var inner := PrintMembers(members, style, level + 1, end);
        EscapedMembers(members, style, level + 1, end, reader);
        CleanPrefix(Break(style, level + 1), inner);
        CleanPrefix("{", Break(style, level + 1) + inner);
      }
  }

  /** The comma and space between two elements are unchanged. */
  lemma EscapedGap(style: Style, level: nat, more: string)
    requires Writes(style)
    ensures EscapeMarkup("," + (style.itemGap + (Break(style, level) + more)))
         == "," + (style.itemGap + (Break(style, level) + EscapeMarkup(more)))
  {
    hide EscapeMarkup;
    BreakIsBlank(style, level, "");
    CleanPrefix(Break(style, level), more);
    CleanPrefix(style.itemGap, Break(style, level) + more);
    CleanPrefix(",", style.itemGap + (Break(style, level) + more));
  }

  lemma {:induction false} EscapedItems(items: Items, style: Style, level: nat, after: string, reader: Reader)
    requires items.Item? && ValidItems(items, reader) && Writes(style) && style.mode.Readable?
    ensures EscapeMarkup(PrintItems(items, style, level, after))
        == PrintItems(items, DelimitedStyle(style), level, EscapeMarkup(after))
  {
    hide EscapeMarkup;
    if items.tail.NoItems? {
      EscapedPrint(items.head, style, level, after, reader);
    } else {
      var more := PrintItems(items.tail, style, level, after);
      EscapedItems(items.tail, style, level, after, reader);
      EscapedGap(style, level, more);
      EscapedPrint(items.head, style, level, "," + (style.itemGap + (Break(style, level) + more)), reader);
    }
  }

  lemma {:induction false} EscapedMembers(members: Members, style: Style, level: nat, after: string, reader: Reader)
    requires members.Member? && ValidMembers(members, reader) && Writes(style) && style.mode.Readable?
    ensures EscapeMarkup(PrintMembers(members, style, level, after))
        == PrintMembers(members, DelimitedStyle(style), level, EscapeMarkup(after))
  {
    hide EscapeMarkup;
    var next := if members.rest.NoMembers? then after
                else "," + (style.itemGap + (Break(style, level) + PrintMembers(members.rest, style, level, after)));
    if members.rest.Member? {
      EscapedMembers(members.rest, style, level, after, reader);
      EscapedGap(style, level, PrintMembers(members.rest, style, level, after));
    }
    var v := Print(members.value, style, level, next);
    EscapedPrint(members.value, style, level, next, reader);
    CleanPrefix(style.keyGap, v);
    CleanPrefix(":", style.keyGap + v);
    EscapedQuoted(members.key, ":" + (style.keyGap + v));
  }

  /** The envelope text: free of markup, and still JSON for the same value. */
  lemma EnvelopeRoundTrip(v: Value, reader: Reader)
    requires Valid(v, reader)
    ensures NoMarkup(JsonForDelimitedPrompt(v))
    ensures Loads(JsonForDelimitedPrompt(v), reader) == Some(v)
  {
    EscapedHasNoMarkup(Dumps(v, INDENTED));
    EscapedPrint(v, INDENTED, 0, "", reader);
    RoundTrip(v, DelimitedStyle(INDENTED), reader);
  }

  // ---- the rendered prompt ----

  predicate KnownStage(stage: string) {
    stage in {"planning", "implementation", "review", "pr-writer"}
  }

  function RStrip(s: string): string {
    if s != "" && s[|s| - 1] in {' ', '\t', '\n', '\r', 0x0B as char, 0x0C as char} then RStrip(s[..|s| - 1]) else s
  }

  const OPEN_TRUSTED := "\n\n<trusted_task_envelope encoding=\"json\">\n"
  const BETWEEN := "<" + "/trusted_task_envelope>\n\n<untrusted_sources encoding=\"json\">\n"
  const CLOSE_UNTRUSTED := "<" + "/untrusted_sources>\n"

  function Envelopes(trusted: Value, untrusted: Value): string {
    (JsonForDelimitedPrompt(trusted) + "\n")
        + (BETWEEN + ((JsonForDelimitedPrompt(untrusted) + "\n") + CLOSE_UNTRUSTED))
  }

  /** `render_prompt`, with the two template files as texts; nothing for an unknown stage or other envelopes. */
  function RenderPrompt(stage: string, system: string, template: string, data: map<string, Value>): Option<string> {
    if !KnownStage(stage) || data.Keys != {"trusted", "untrusted"} then None
    else
      assert "trusted" in data.Keys && "untrusted" in data.Keys;
      Some((RStrip(system) + "\n\n" + RStrip(template) + OPEN_TRUSTED) + Envelopes(data["trusted"], data["untrusted"]))
  }

  /** A text without markup, followed by a delimiter, ends where the first `<` is. */
  lemma EndsAtDelimiter(a: string, b: string, x: string, y: string)
    requires NoMarkup(a) && NoMarkup(b) && x != "" && y != "" && x[0] == '<' && y[0] == '<' && a + x == b + y
    ensures a == b && x == y
  {
    var s := a + x;
    assert s[|a|] == '<' && s[|b|] == '<';
    assert (forall k :: 0 <= k < |a| ==> s[k] != '<') && forall k :: 0 <= k < |b| ==> s[k] != '<';
    assert |a| == |b|;
    assert (a + x)[..|a|] == a && (b + y)[..|b|] == b && (a + x)[|a|..] == x && (b + y)[|b|..] == y;
  }

  lemma SamePrefix(p: string, a: string, b: string)
    requires p + a == p + b
    ensures a == b
  {
    assert (p + a)[|p|..] == a && (p + b)[|p|..] == b;
  }

  /** Trailing space is cut, and nothing else. */
  lemma {:induction false} RStripExactly(s: string)
    ensures RStrip(s) <= s
    ensures forall k :: |RStrip(s)| <= k < |s| ==> s[k] in {' ', '\t', '\n', '\r', 0x0B as char, 0x0C as char}
    ensures var r := RStrip(s);
            r != "" ==> r[|r| - 1] !in {' ', '\t', '\n', '\r', 0x0B as char, 0x0C as char}
  {
    if s != "" {
      RStripExactly(s[..|s| - 1]);
    }
  }

  /** The instructions at the head of a prompt, and two texts in the two envelopes after it. */
  predicate Divides(text: string, system: string, template: string, trusted: string, untrusted: string) {
    text == (((RStrip(system) + "\n\n") + RStrip(template)) + OPEN_TRUSTED)
            + ((trusted + "\n") + (BETWEEN + ((untrusted + "\n") + CLOSE_UNTRUSTED)))
  }

  /** What a reader finds: there is one way only to divide a text around envelopes that are free of markup. */
  lemma DivisionIsUnique(text: string, system: string, template: string, a: string, b: string, x: string, y: string)
    requires Divides(text, system, template, a, b) && NoMarkup(a) && NoMarkup(b)
    requires Divides(text, system, template, x, y) && NoMarkup(x) && NoMarkup(y)
    ensures a == x && b == y
  {
    var head := ((RStrip(system) + "\n\n") + RStrip(template)) + OPEN_TRUSTED;
    var (s, t) := (BETWEEN + ((b + "\n") + CLOSE_UNTRUSTED), BETWEEN + ((y + "\n") + CLOSE_UNTRUSTED));
    assert BETWEEN[0] == '<' && CLOSE_UNTRUSTED[0] == '<' && s[0] == BETWEEN[0] && t[0] == BETWEEN[0];
    SamePrefix(head, (a + "\n") + s, (x + "\n") + t);
    EndsAtDelimiter(a + "\n", x + "\n", s, t);
    SamePrefix(BETWEEN, (b + "\n") + CLOSE_UNTRUSTED, (y + "\n") + CLOSE_UNTRUSTED);
    EndsAtDelimiter(b + "\n", y + "\n", CLOSE_UNTRUSTED, CLOSE_UNTRUSTED);
    SameLine(a, x);
    SameLine(b, y);
  }

  lemma SameLine(a: string, b: string)
    requires a + "\n" == b + "\n"
    ensures a == b
  {
    assert (a + "\n")[..|a|] == a && (b + "\n")[..|b|] == b;
  }

  /**
   What a prompt says: for a known stage and the two envelopes, and for nothing else, it is the
   instructions, then in the trusted envelope a text that reads as the trusted data, and in the
   untrusted envelope one that reads as the untrusted data, neither with any markup.
   */
  lemma PromptReads(stage: string, system: string, template: string, data: map<string, Value>, reader: Reader)
    returns (a: string, b: string)
    requires forall k :: k in data ==> Valid(data[k], reader)
    ensures RenderPrompt(stage, system, template, data).Some?
       <==> KnownStage(stage) && data.Keys == {"trusted", "untrusted"}
    ensures var text := RenderPrompt(stage, system, template, data);
            text.Some? ==>
              && "trusted" in data && "untrusted" in data && Divides(text.value, system, template, a, b)
              && NoMarkup(a) && Loads(a, reader) == Some(data["trusted"])
              && NoMarkup(b) && Loads(b, reader) == Some(data["untrusted"])
  {
    a, b := "", "";
    if RenderPrompt(stage, system, template, data).Some? {
      assert "trusted" in data.Keys && "untrusted" in data.Keys;
      a, b := JsonForDelimitedPrompt(data["trusted"]), JsonForDelimitedPrompt(data["untrusted"]);
      EnvelopeRoundTrip(data["trusted"], reader);
      EnvelopeRoundTrip(data["untrusted"], reader);
      hide NoMarkup, Loads, JsonForDelimitedPrompt, Valid, RStrip;
      assert Divides(RenderPrompt(stage, system, template, data).value, system, template, a, b);
    }
  }

  /**
   So one prompt text carries one pair of envelopes: no trusted or untrusted data, whatever strings
   it holds, renders like other data, and none can close its envelope or open another.
   */
  lemma PromptDeterminesData(stage: string, system: string, template: string,
                             a: map<string, Value>, b: map<string, Value>, reader: Reader)
    requires RenderPrompt(stage, system, template, a).Some?
    requires RenderPrompt(stage, system, template, a) == RenderPrompt(stage, system, template, b)
    requires forall k :: k in a ==> Valid(a[k], reader)
    requires forall k :: k in b ==> Valid(b[k], reader)
    ensures a == b
  {
    hide Divides, NoMarkup, Loads, Valid;
    var t, u := PromptReads(stage, system, template, a, reader);
    var v, w := PromptReads(stage, system, template, b, reader);
    DivisionIsUnique(RenderPrompt(stage, system, template, a).value, system, template, t, u, v, w);
    hide RenderPrompt;
    assert forall k :: k in a.Keys ==> k == "trusted" || k == "untrusted";
  }
}
