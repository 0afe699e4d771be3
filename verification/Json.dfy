/**
 JSON values, the texts that `json.dumps` writes for them in the three styles that the program
 uses, and the reading of a text back into a value (RFC 8259, sections 4 to 7).
 A printed text is always given together with the text that follows it.
 */
module Json {
  import opened Results
  import opened Calendar

  /** A number or literal is kept as its canonical text; the members of an object are in key order. */
  datatype Value =
    | Scalar(token: string)
    | Str(text: string)
    | Array(items: Items)
    | Object(members: Members)

  datatype Items = NoItems | Item(head: Value, tail: Items)
  datatype Members = NoMembers | Member(key: string, value: Value, rest: Members)

  /** How a reader turns the text of a number or literal into its canonical text, if it is one. */
  type Reader = string -> Option<string>

  predicate TokenChar(c: char) {
    '0' <= c <= '9' || 'a' <= c <= 'z' || 'A' <= c <= 'Z' || c in {'+', '-', '.'}
  }

  predicate IsToken(s: string) {
    s != "" && forall k :: 0 <= k < |s| ==> TokenChar(s[k])
  }

  /** Reading yields canonical tokens, and a canonical token stands for itself. */
  ghost predicate Normalizes(reader: Reader) {
    forall s: string :: reader(s).Some? ==> IsToken(reader(s).value) && reader(reader(s).value) == reader(s)
  }

  predicate Before(key: string, members: Members) {
    members.Member? ==> TextLess(key, members.key)
  }

  predicate Valid(v: Value, reader: Reader) {
    match v
    case Scalar(t) => IsToken(t) && reader(t) == Some(t)
    case Str(_) => true
    case Array(items) => ValidItems(items, reader)
    case Object(members) => ValidMembers(members, reader)
  }

  predicate ValidItems(items: Items, reader: Reader) {
    items.Item? ==> Valid(items.head, reader) && ValidItems(items.tail, reader)
  }

  /** Keys ascend strictly, as in the `sort_keys` image of a dictionary. */
  predicate ValidMembers(members: Members, reader: Reader) {
    members.Member? ==>
      Valid(members.value, reader) && ValidMembers(members.rest, reader) && Before(members.key, members.rest)
  }

  // ---- writing ----

  datatype Mode = Readable | Ascii | Delimited
  datatype Style = Style(mode: Mode, indent: bool, itemGap: string, keyGap: string)

  const INDENTED := Style(Readable, true, "", " ")
  const COMPACT := Style(Ascii, false, "", "")
  const SPACED := Style(Ascii, false, " ", " ")

  function HexDigit(n: nat): char
    requires n < 16
  {
    if n < 10 then '0' + n as char else 'a' + (n - 10) as char
  }

  function Hex4(n: nat): string
    requires n < 0x10000
  {
    [HexDigit(n / 4096), HexDigit(n / 256 % 16), HexDigit(n / 16 % 16), HexDigit(n % 16)]
  }

  const BACKSPACE: char := 0x08 as char
  const FORM_FEED: char := 0x0C as char

  function ShortEscape(c: char): Option<char> {
    if c == '"' then Some('"')
    else if c == '\\' then Some('\\')
    else if c == '\n' then Some('n')
    else if c == '\r' then Some('r')
    else if c == '\t' then Some('t')
    else if c == BACKSPACE then Some('b')
    else if c == FORM_FEED then Some('f')
    else None
  }

  function UnicodeEscape(n: nat): string
    requires n < 0x10000
  {
    ['\\', 'u'] + Hex4(n)
  }

  function EscapeChar(c: char, mode: Mode): string {
    var n := c as int;
    if ShortEscape(c).Some? then ['\\', ShortEscape(c).value]
    else if n < 0x20 || (mode.Delimited? && c in {'&', '<', '>'}) then UnicodeEscape(n)
    else if !mode.Ascii? || c <= '~' then [c]
    else if n < 0x10000 then UnicodeEscape(n)
    else UnicodeEscape(0xD800 + (n - 0x10000) / 0x400) + UnicodeEscape(0xDC00 + (n - 0x10000) % 0x400)
  }

  function PrintText(text: string, mode: Mode, after: string): string {
    if text == "" then after else EscapeChar(text[0], mode) + PrintText(text[1..], mode, after)
  }

  function Spaces(n: nat): string {
    seq(n, _ => ' ')
  }

  function Break(style: Style, level: nat): string {
    if style.indent then "\n" + Spaces(2 * level) else ""
  }

  function Quoted(text: string, mode: Mode, after: string): string {
    "\"" + PrintText(text, mode, "\"" + after)
  }

  function Print(v: Value, style: Style, level: nat, after: string): string {
    match v
    case Scalar(t) => t + after
    case Str(text) => Quoted(text, style.mode, after)
    case Array(items) =>
      if items.NoItems? then "[" + ("]" + after)
      else
        var end := Break(style, level) + ("]" + after);
        "[" + (Break(style, level + 1) + PrintItems(items, style, level + 1, end))
    case Object(members) =>
      if members.NoMembers? then "{" + ("}" + after)
      else
        var end := Break(style, level) + ("}" + after);
        "{" + (Break(style, level + 1) + PrintMembers(members, style, level + 1, end))
  }

  function PrintItems(items: Items, style: Style, level: nat, after: string): string
    requires items.Item?
  {
    Print(items.head, style, level,
          if items.tail.NoItems? then after
          else "," + (style.itemGap + (Break(style, level) + PrintItems(items.tail, style, level, after))))
  }

  function PrintMembers(members: Members, style: Style, level: nat, after: string): string
    requires members.Member?
  {
    Quoted(members.key, style.mode, ":" + (style.keyGap + Print(members.value, style, level,
      if members.rest.NoMembers? then after
      else "," + (style.itemGap + (Break(style, level) + PrintMembers(members.rest, style, level, after))))))
  }

  /** `json.dumps(v, sort_keys=True)` in the given style. */
  function Dumps(v: Value, style: Style): string {
    Print(v, style, 0, "")
  }

  // ---- reading ----

  predicate IsSpace(c: char) {
    c in {' ', '\t', '\n', '\r'}
  }

  predicate Blank(s: string) {
    forall k :: 0 <= k < |s| ==> IsSpace(s[k])
  }

  function SkipSpace(s: string): (r: string)
    ensures |r| <= |s|
    ensures r != "" ==> !IsSpace(r[0])
  {
    if s != "" && IsSpace(s[0]) then SkipSpace(s[1..]) else s
  }

  function UnHex(c: char): Option<nat> {
    if '0' <= c <= '9' then Some(c as int - '0' as int)
    else if 'a' <= c <= 'f' then Some(c as int - 'a' as int + 10)
    else if 'A' <= c <= 'F' then Some(c as int - 'A' as int + 10)
    else None
  }

  function ReadHex4(s: string): (r: Option<nat>)
    ensures r.Some? ==> |s| >= 4 && r.value < 0x10000
  {
    if |s| < 4 then None
    else
      var (a, b, c, d) := (UnHex(s[0]), UnHex(s[1]), UnHex(s[2]), UnHex(s[3]));
      if a.Some? && b.Some? && c.Some? && d.Some?
      then Some(4096 * a.value + 256 * b.value + 16 * c.value + d.value) else None
  }

  function UnShort(c: char): Option<char> {
    match c
    case '"' => Some('"')
    case '\\' => Some('\\')
    case '/' => Some('/')
    case 'b' => Some(BACKSPACE)
    case 'f' => Some(FORM_FEED)
    case 'n' => Some('\n')
    case 'r' => Some('\r')
    case 't' => Some('\t')
    case _ => None
  }

  /** The character of an escape, from the text after its backslash. */
  function ReadEscape(s: string): (r: Option<(char, string)>)
    ensures r.Some? ==> |r.value.1| < |s|
  {
    if s == "" then None
    else if s[0] != 'u' then
      var c := UnShort(s[0]);
      if c.Some? then Some((c.value, s[1..])) else None
    else
      var n := ReadHex4(s[1..]);
      if n.None? then None
      else if 0xD800 <= n.value < 0xDC00 then
        if |s| < 11 || s[5..7] != ['\\', 'u'] then None
        else
          var low := ReadHex4(s[7..]);
          if low.None? || !(0xDC00 <= low.value < 0xE000) then None
          else Some(((0x10000 + (n.value - 0xD800) * 0x400 + (low.value - 0xDC00)) as char, s[11..]))
      else if 0xDC00 <= n.value < 0xE000 then None
      else Some((n.value as char, s[5..]))
  }

  /** The text of a string and what follows it, from the text after its opening quote. */
  function ParseString(s: string): (r: Option<(string, string)>)
    ensures r.Some? ==> |r.value.1| < |s|
    decreases |s|
  {
    if s == "" then None
    else if s[0] == '"' then Some(("", s[1..]))
    else if s[0] == '\\' then
      var e := ReadEscape(s[1..]);
      if e.None? then None
      else
        var r := ParseString(e.value.1);
        if r.None? then None else Some(([e.value.0] + r.value.0, r.value.1))
    else if s[0] < ' ' then None
    else
      var r := ParseString(s[1..]);
      if r.None? then None else Some(([s[0]] + r.value.0, r.value.1))
  }

  function TakeToken(s: string): (r: (string, string))
    ensures |r.0| + |r.1| == |s|
  {
    if s != "" && TokenChar(s[0]) then
      var r := TakeToken(s[1..]);
      ([s[0]] + r.0, r.1)
    else ("", s)
  }

  /** A member that comes before others: a later member with the same key wins. */
  function Insert(key: string, v: Value, members: Members): Members {
    if members.NoMembers? || TextLess(key, members.key) then Member(key, v, members)
    else if key == members.key then members
    else Member(members.key, members.value, Insert(key, v, members.rest))
  }

  function ParseValue(s: string, reader: Reader): (r: Option<(Value, string)>)
    ensures r.Some? ==> |r.value.1| < |s|
    decreases |s|, 0
  {
    var t := SkipSpace(s);
    if t == "" then None
    else if t[0] == '"' then
      var r := ParseString(t[1..]);
      if r.None? then None else Some((Str(r.value.0), r.value.1))
    else if t[0] == '[' then
      var u := SkipSpace(t[1..]);
      if u != "" && u[0] == ']' then Some((Array(NoItems), u[1..]))
      else
        var r := ParseItems(t[1..], reader);
        if r.None? then None else Some((Array(r.value.0), r.value.1))
    else if t[0] == '{' then
      var u := SkipSpace(t[1..]);
      if u != "" && u[0] == '}' then Some((Object(NoMembers), u[1..]))
      else
        var r := ParseMembers(t[1..], reader);
        if r.None? then None else Some((Object(r.value.0), r.value.1))
    else
      var (token, rest) := TakeToken(t);
      var c := if token == "" then None else reader(token);
      if c.None? then None else Some((Scalar(c.value), rest))
  }

  function ParseItems(s: string, reader: Reader): (r: Option<(Items, string)>)
    ensures r.Some? ==> |r.value.1| < |s|
    decreases |s|, 1
  {
    var h := ParseValue(s, reader);
    if h.None? then None
    else
      var t := SkipSpace(h.value.1);
      if t == "" then None
      else if t[0] == ']' then Some((Item(h.value.0, NoItems), t[1..]))
      else if t[0] != ',' then None
      else
        var r := ParseItems(t[1..], reader);
        if r.None? then None else Some((Item(h.value.0, r.value.0), r.value.1))
  }

  function ParseMembers(s: string, reader: Reader): (r: Option<(Members, string)>)
    ensures r.Some? ==> |r.value.1| < |s|
    decreases |s|, 1
  {
    var q := SkipSpace(s);
    var k := if q != "" && q[0] == '"' then ParseString(q[1..]) else None;
    var colon := if k.None? then "" else SkipSpace(k.value.1);
    if colon == "" || colon[0] != ':' then None
    else
      var v := ParseValue(colon[1..], reader);
      var t := if v.None? then "" else SkipSpace(v.value.1);
      if t == "" then None
      else if t[0] == '}' then Some((Insert(k.value.0, v.value.0, NoMembers), t[1..]))
      else if t[0] != ',' then None
      else
        var r := ParseMembers(t[1..], reader);
        if r.None? then None else Some((Insert(k.value.0, v.value.0, r.value.0), r.value.1))
  }

  /** `json.loads`, up to the reading of numbers and literals. */
  function Loads(s: string, reader: Reader): Option<Value> {
    var r := ParseValue(s, reader);
    if r.Some? && SkipSpace(r.value.1) == "" then Some(r.value.0) else None
  }

  /** A string that is read holds no control character, and ends at a quote. */
  lemma {:induction false} NoControlInStrings(s: string)
    ensures var r := ParseString(s);
            r.Some? ==>
              var n := |s| - |r.value.1|;
              n > 0 && s[n..] == r.value.1 && s[n - 1] == '"' && forall k :: 0 <= k < n ==> s[k] >= ' '
    decreases |s|
  {
    if s != "" && s[0] == '\\' {
      var e := ReadEscape(s[1..]);
      if e.Some? {
        EscapeIsPlain(s[1..]);
        NoControlInStrings(e.value.1);
      }
    } else if s != "" && s[0] != '"' {
      NoControlInStrings(s[1..]);
    }
  }

  lemma EscapeIsPlain(s: string)
    ensures var r := ReadEscape(s);
            r.Some? ==>
              var n := |s| - |r.value.1|;
              s[n..] == r.value.1 && forall k :: 0 <= k < n ==> s[k] >= ' '
  {
  }

  // ---- one character, one string ----

  lemma HexDigitReads(d: nat)
    requires d < 16
    ensures UnHex(HexDigit(d)) == Some(d)
  {
  }

  lemma HexPlaces(n: nat)
    ensures n == 4096 * (n / 4096) + 256 * (n / 256 % 16) + 16 * (n / 16 % 16) + n % 16
  {
    assert n == 16 * (n / 16) + n % 16;
    assert n / 16 == 16 * (n / 16 / 16) + n / 16 % 16 && n / 16 / 16 == n / 256;
    assert n / 256 == 16 * (n / 256 / 16) + n / 256 % 16 && n / 256 / 16 == n / 4096;
  }

  lemma HexReads(n: nat, after: string)
    requires n < 0x10000
    ensures ReadHex4(Hex4(n) + after) == Some(n)
  {
    var (a, b, c, d) := (n / 4096, n / 256 % 16, n / 16 % 16, n % 16);
    HexPlaces(n);
    HexDigitReads(a);
    HexDigitReads(b);
    HexDigitReads(c);
    HexDigitReads(d);
    var s := Hex4(n) + after;
    assert s[0] == HexDigit(a) && s[1] == HexDigit(b) && s[2] == HexDigit(c) && s[3] == HexDigit(d);
    hide HexDigit, UnHex, Hex4;
  }

  lemma ShortReads(c: char, after: string)
    requires ShortEscape(c).Some?
    ensures ReadEscape([ShortEscape(c).value] + after) == Some((c, after))
  {
    var s := [ShortEscape(c).value] + after;
    assert UnShort(s[0]) == Some(c) && s[0] != 'u' && s[1..] == after;
    hide ShortEscape, UnShort;
  }

  lemma UnicodeReads(n: nat, after: string)
    requires n < 0xD800 || 0xE000 <= n < 0x10000
    ensures ReadEscape(UnicodeEscape(n)[1..] + after) == Some((n as char, after))
  {
    var s := UnicodeEscape(n)[1..] + after;
    HexReads(n, after);
    assert s[1..] == Hex4(n) + after && s[5..] == after && s[0] == 'u';
    hide ReadHex4, Hex4;
  }

  lemma PairShape(a: string, b: string, after: string)
    requires |a| == 4 && |b| == 4
    ensures var mark := ['\\', 'u'];
            var s := ((mark + a) + (mark + b))[1..] + after;
            && |s| >= 11 && s[0] == 'u' && s[1..] == a + (mark + b + after)
            && s[5..7] == mark && s[7..] == b + after && s[11..] == after
  {
  }

  /** A surrogate pair reads back as the one character that it stands for. */
  lemma PairReads(n: nat, after: string)
    requires 0x10000 <= n < 0x110000
    ensures var e := UnicodeEscape(0xD800 + (n - 0x10000) / 0x400) + UnicodeEscape(0xDC00 + (n - 0x10000) % 0x400);
            ReadEscape(e[1..] + after) == Some((n as char, after))
  {
    hide ReadHex4;
    var (high, low) := (0xD800 + (n - 0x10000) / 0x400, 0xDC00 + (n - 0x10000) % 0x400);
    HexReads(high, UnicodeEscape(low) + after);
    HexReads(low, after);
    assert |Hex4(high)| == 4 && |Hex4(low)| == 4;
    hide Hex4;
    PairShape(Hex4(high), Hex4(low), after);
  }

  /** What is written for a character, other than the character itself, reads back as an escape of it. */
  lemma EscapeReads(c: char, mode: Mode, after: string)
    ensures var e := EscapeChar(c, mode);
            || (e == [c] && c >= ' ' && c != '"' && c != '\\')
            || (|e| > 0 && e[0] == '\\' && ReadEscape(e[1..] + after) == Some((c, after)))
  {
    hide ReadEscape, Hex4, ShortEscape;
    var n := c as int;
    var e := EscapeChar(c, mode);
    if ShortEscape(c).Some? {
      ShortReads(c, after);
      assert e[1..] == [ShortEscape(c).value];
    } else if e == [c] {
      PlainChar(c);
    } else if n < 0x10000 {
      UnicodeReads(n, after);
    } else {
      PairReads(n, after);
    }
  }

  lemma PlainChar(c: char)
    ensures ShortEscape(c).None? ==> c != '"' && c != '\\'
  {
  }

  lemma PlainThenText(c: char, more: string)
    requires c >= ' ' && c != '"' && c != '\\'
    ensures var r := ParseString(more);
            ParseString([c] + more) == if r.None? then None else Some(([c] + r.value.0, r.value.1))
  {
    assert ([c] + more)[1..] == more;
  }

  lemma EscapeThenText(c: char, e: string, more: string)
    requires |e| > 0 && e[0] == '\\' && ReadEscape(e[1..] + more) == Some((c, more))
    ensures var r := ParseString(more);
            ParseString(e + more) == if r.None? then None else Some(([c] + r.value.0, r.value.1))
  {
    hide ReadEscape;
    assert (e + more)[0] == '\\' && (e + more)[1..] == e[1..] + more;
  }

  lemma {:induction false} StringReads(text: string, mode: Mode, after: string)
    ensures ParseString(PrintText(text, mode, "\"" + after)) == Some((text, after))
  {
    if text == "" {
      assert ("\"" + after)[1..] == after;
    } else {
      hide ReadEscape, EscapeChar, ParseString;
      var (e, more) := (EscapeChar(text[0], mode), PrintText(text[1..], mode, "\"" + after));
      StringReads(text[1..], mode, after);
      EscapeReads(text[0], mode, more);
      assert text == [text[0]] + text[1..];
      if e == [text[0]] && e[0] != '\\' {
        PlainThenText(text[0], more);
      } else {
        EscapeThenText(text[0], e, more);
      }
    }
  }

  // ---- reading what was written ----

  lemma {:induction false} SkipsBlank(blank: string, s: string)
    requires Blank(blank)
    ensures SkipSpace(blank + s) == SkipSpace(s)
  {
    if blank == "" {
      assert blank + s == s;
    } else {
      assert (blank + s)[1..] == blank[1..] + s;
      SkipsBlank(blank[1..], s);
    }
  }

  lemma ParseSkipsBlank(blank: string, s: string, reader: Reader)
    requires Blank(blank)
    ensures ParseValue(blank + s, reader) == ParseValue(s, reader)
    ensures ParseItems(blank + s, reader) == ParseItems(s, reader)
    ensures ParseMembers(blank + s, reader) == ParseMembers(s, reader)
  {
    SkipsBlank(blank, s);
  }

  /** A text after which a token has ended. */
  predicate Follows(s: string) {
    s != "" ==> !TokenChar(s[0])
  }

  lemma {:induction false} TokenEnds(t: string, after: string)
    requires (forall k :: 0 <= k < |t| ==> TokenChar(t[k])) && Follows(after)
    ensures TakeToken(t + after) == (t, after)
  {
    if t == "" {
      assert t + after == after;
    } else {
      TokenEnds(t[1..], after);
      assert (t + after)[1..] == t[1..] + after && t == [t[0]] + t[1..];
    }
  }

  predicate Writes(style: Style) {
    Blank(style.itemGap) && Blank(style.keyGap)
  }

  lemma BreakIsBlank(style: Style, level: nat, s: string)
    ensures Blank(Break(style, level))
    ensures Follows(s) ==> Follows(Break(style, level) + s)
  {
    assert !style.indent ==> Break(style, level) + s == s;
  }

  /** A printed value starts with its own mark, never with space or a closing bracket. */
  lemma PrintStarts(v: Value, style: Style, level: nat, after: string, reader: Reader)
    requires Valid(v, reader)
    ensures var s := Print(v, style, level, after); s != "" && !IsSpace(s[0]) && s[0] != ']' && s[0] != '}'
  {
  }

  lemma ArrayReads(blank: string, inner: string, reader: Reader)
    requires Blank(blank) && inner != "" && !IsSpace(inner[0]) && inner[0] != ']'
    ensures var r := ParseItems(inner, reader);
            ParseValue("[" + (blank + inner), reader) == if r.None? then None else Some((Array(r.value.0), r.value.1))
  {
    var s := "[" + (blank + inner);
    assert SkipSpace(s) == s && s[1..] == blank + inner;
    SkipsBlank(blank, inner);
    ParseSkipsBlank(blank, inner, reader);
    hide ParseItems;
  }

  lemma ObjectReads(blank: string, inner: string, reader: Reader)
    requires Blank(blank) && inner != "" && !IsSpace(inner[0]) && inner[0] != '}'
    ensures var r := ParseMembers(inner, reader);
            ParseValue("{" + (blank + inner), reader) == if r.None? then None else Some((Object(r.value.0), r.value.1))
  {
    var s := "{" + (blank + inner);
    assert SkipSpace(s) == s && s[1..] == blank + inner;
    SkipsBlank(blank, inner);
    ParseSkipsBlank(blank, inner, reader);
    hide ParseMembers;
  }

  lemma LeafReads(v: Value, style: Style, level: nat, after: string, reader: Reader)
    requires Valid(v, reader) && Follows(after)
    requires (v.Scalar? || v.Str? || v == Array(NoItems) || v == Object(NoMembers))
    ensures ParseValue(Print(v, style, level, after), reader) == Some((v, after))
  {
    var s := Print(v, style, level, after);
    PrintStarts(v, style, level, after, reader);
    assert SkipSpace(s) == s;
    match v
    case Scalar(t) =>
      TokenEnds(t, after);
    case Str(text) =>
      StringReads(text, style.mode, after);
      assert s[1..] == PrintText(text, style.mode, "\"" + after);
    case Array(_) =>
      assert s[1..] == "]" + after && (s[1..])[1..] == after;
    case Object(_) =>
      assert s[1..] == "}" + after && (s[1..])[1..] == after;
  }

  lemma {:induction false} ParsePrint(v: Value, style: Style, level: nat, after: string, reader: Reader)
    requires Valid(v, reader) && Writes(style) && Follows(after)
    ensures ParseValue(Print(v, style, level, after), reader) == Some((v, after))
  {
    hide ParseValue, ParseItems, ParseMembers;
    if v.Array? && v.items.Item? {
      var inner := PrintItems(v.items, style, level + 1, Break(style, level) + ("]" + after));
      ParsePrintItems(v.items, style, level + 1, level, after, reader);
      BreakIsBlank(style, level + 1, inner);
      ArrayReads(Break(style, level + 1), inner, reader);
    } else if v.Object? && v.members.Member? {
      var inner := PrintMembers(v.members, style, level + 1, Break(style, level) + ("}" + after));
      ParsePrintMembers(v.members, style, level + 1, level, after, reader);
      BreakIsBlank(style, level + 1, inner);
      ObjectReads(Break(style, level + 1), inner, reader);
    } else {
      LeafReads(v, style, level, after, reader);
    }
  }

  lemma {:induction false} ParsePrintItems(items: Items, style: Style, level: nat,
                                           outer: nat, after: string, reader: Reader)
    requires items.Item? && ValidItems(items, reader) && Writes(style)
    ensures var s := PrintItems(items, style, level, Break(style, outer) + ("]" + after));
            && s != "" && !IsSpace(s[0]) && s[0] != ']'
            && ParseItems(s, reader) == Some((items, after))
  {
    var end := Break(style, outer) + ("]" + after);
    var s := PrintItems(items, style, level, end);
    if items.tail.NoItems? {
      BreakIsBlank(style, outer, "]" + after);
      PrintStarts(items.head, style, level, end, reader);
      ParsePrint(items.head, style, level, end, reader);
      SkipsBlank(Break(style, outer), "]" + after);
      assert ("]" + after)[1..] == after;
    } else {
      var more := PrintItems(items.tail, style, level, end);
      var gap := style.itemGap + (Break(style, level) + more);
      ParsePrintItems(items.tail, style, level, outer, after, reader);
      PrintStarts(items.head, style, level, "," + gap, reader);
      ParsePrint(items.head, style, level, "," + gap, reader);
      BreakIsBlank(style, level, more);
      ParseSkipsBlank(style.itemGap, Break(style, level) + more, reader);
      ParseSkipsBlank(Break(style, level), more, reader);
      assert ("," + gap)[1..] == gap;
    }
  }

  /** One member, up to the comma or brace that follows it. */
  lemma MemberReads(key: string, mode: Mode, gap: string, text: string, v: Value, next: string, reader: Reader)
    requires Blank(gap) && ParseValue(text, reader) == Some((v, next))
    ensures var (s, t) := (Quoted(key, mode, ":" + (gap + text)), SkipSpace(next));
            && (t != "" && t[0] == '}' ==> ParseMembers(s, reader) == Some((Insert(key, v, NoMembers), t[1..])))
            && (t != "" && t[0] == ',' ==>
                  var r := ParseMembers(t[1..], reader);
                  r.Some? ==> ParseMembers(s, reader) == Some((Insert(key, v, r.value.0), r.value.1)))
  {
    var s := Quoted(key, mode, ":" + (gap + text));
    StringReads(key, mode, ":" + (gap + text));
    assert SkipSpace(s) == s;
    assert s[1..] == PrintText(key, mode, "\"" + (":" + (gap + text)));
    assert SkipSpace(":" + (gap + text)) == ":" + (gap + text);
    assert (":" + (gap + text))[1..] == gap + text;
    ParseSkipsBlank(gap, text, reader);
    hide ParseValue, ParseString, PrintText;
  }

  lemma {:induction false} ParsePrintMembers(members: Members, style: Style, level: nat,
                                             outer: nat, after: string, reader: Reader)
    requires members.Member? && ValidMembers(members, reader) && Writes(style)
    ensures var s := PrintMembers(members, style, level, Break(style, outer) + ("}" + after));
            && s != "" && !IsSpace(s[0]) && s[0] != '}'
            && ParseMembers(s, reader) == Some((members, after))
  {
    hide ParseValue, ParseMembers;
    var end := Break(style, outer) + ("}" + after);
    BreakIsBlank(style, outer, "}" + after);
    if members.rest.NoMembers? {
      var v := Print(members.value, style, level, end);
      ParsePrint(members.value, style, level, end, reader);
      SkipsBlank(Break(style, outer), "}" + after);
      MemberReads(members.key, style.mode, style.keyGap, v, members.value, end, reader);
      assert ("}" + after)[1..] == after && SkipSpace("}" + after) == "}" + after;
    } else {
      var more := PrintMembers(members.rest, style, level, end);
      var gap := style.itemGap + (Break(style, level) + more);
      var v := Print(members.value, style, level, "," + gap);
      ParsePrintMembers(members.rest, style, level, outer, after, reader);
      ParsePrint(members.value, style, level, "," + gap, reader);
      BreakIsBlank(style, level, more);
      ParseSkipsBlank(style.itemGap, Break(style, level) + more, reader);
      ParseSkipsBlank(Break(style, level), more, reader);
      MemberReads(members.key, style.mode, style.keyGap, v, members.value, "," + gap, reader);
      assert ("," + gap)[1..] == gap && SkipSpace("," + gap) == "," + gap;
    }
  }

  /** Whatever the style, a written value reads back as itself. */
  lemma RoundTrip(v: Value, style: Style, reader: Reader)
    requires Valid(v, reader) && Writes(style)
    ensures Loads(Dumps(v, style), reader) == Some(v)
  {
    ParsePrint(v, style, 0, "", reader);
  }

  lemma {:induction false} OnlySpaceIsSkipped(s: string)
    ensures SkipSpace(s) == "" <==> Blank(s)
  {
    if s != "" && IsSpace(s[0]) {
      OnlySpaceIsSkipped(s[1..]);
      assert s == [s[0]] + s[1..];
    }
  }

  /** A reader takes whole texts only: after a value, nothing but space may follow. */
  lemma OnlyWholeTexts(v: Value, style: Style, after: string, reader: Reader)
    requires Valid(v, reader) && Writes(style) && Follows(after)
    ensures Loads(Print(v, style, 0, after), reader) == if Blank(after) then Some(v) else None
  {
    ParsePrint(v, style, 0, after, reader);
    OnlySpaceIsSkipped(after);
  }

  /** So one text, in one style, is written for one value only. */
  lemma DumpsInjective(v: Value, w: Value, style: Style, reader: Reader)
    requires Valid(v, reader) && Valid(w, reader) && Writes(style) && Dumps(v, style) == Dumps(w, style)
    ensures v == w
  {
    RoundTrip(v, style, reader);
    RoundTrip(w, style, reader);
  }

  // ---- dictionaries ----

  function Keys(m: Members): set<string> {
    if m.NoMembers? then {} else {m.key} + Keys(m.rest)
  }

  function Lookup(m: Members, key: string): Option<Value> {
    if m.NoMembers? then None else if m.key == key then Some(m.value) else Lookup(m.rest, key)
  }

  function Without(m: Members, key: string): Members {
    if m.NoMembers? then NoMembers
    else if m.key == key then Without(m.rest, key) else Member(m.key, m.value, Without(m.rest, key))
  }

  lemma {:induction false} TextTransitive(a: string, b: string, c: string)
    requires TextLess(a, b) && TextLess(b, c)
    ensures TextLess(a, c)
  {
    if a != "" && a[0] == b[0] && b[0] == c[0] {
      TextTransitive(a[1..], b[1..], c[1..]);
    }
  }

  /** The first key is the least: it does not occur again. */
  lemma {:induction false} BeforeAll(key: string, m: Members, reader: Reader)
    requires ValidMembers(m, reader) && Before(key, m)
    ensures key !in Keys(m) && Lookup(m, key).None? && Without(m, key) == m
    ensures forall k :: k in Keys(m) ==> TextLess(key, k)
  {
    if m.Member? {
      if m.rest.Member? {
        TextTransitive(key, m.key, m.rest.key);
      }
      BeforeAll(key, m.rest, reader);
      TextIrreflexive(key);
    }
  }

  lemma {:induction false} WithoutIsValid(m: Members, key: string, reader: Reader)
    requires ValidMembers(m, reader)
    ensures ValidMembers(Without(m, key), reader)
    ensures forall k :: Before(k, m) ==> Before(k, Without(m, key))
  {
    if m.Member? {
      WithoutIsValid(m.rest, key, reader);
      forall k | Before(k, m) && m.rest.Member?
        ensures Before(k, m.rest)
      {
        TextTransitive(k, m.key, m.rest.key);
      }
    }
  }

  lemma {:induction false} LookupIffKey(m: Members, key: string)
    ensures Lookup(m, key).Some? <==> key in Keys(m)
    ensures forall k :: k != key ==> Lookup(Without(m, key), k) == Lookup(m, k)
  {
    if m.Member? {
      LookupIffKey(m.rest, key);
    }
  }

  /** A dictionary is determined by one of its entries and by what remains without it. */
  lemma {:induction false} EntryAndRemainder(a: Members, b: Members, key: string, reader: Reader)
    requires ValidMembers(a, reader) && ValidMembers(b, reader) && key in Keys(a) && key in Keys(b)
    requires Lookup(a, key) == Lookup(b, key) && Without(a, key) == Without(b, key)
    ensures a == b
  {
    BeforeAll(a.key, a.rest, reader);
    BeforeAll(b.key, b.rest, reader);
    if a.key == key && b.key != key {
      assert Without(a, key) == a.rest && a.rest.key == b.key;
      assert TextLess(b.key, key) && TextLess(key, b.key);
      TextTransitive(key, b.key, key);
      TextIrreflexive(key);
    } else if a.key != key && b.key == key {
      assert Without(b, key) == b.rest && b.rest.key == a.key;
      assert TextLess(a.key, key) && TextLess(key, a.key);
      TextTransitive(key, a.key, key);
      TextIrreflexive(key);
    } else if a.key != key {
      EntryAndRemainder(a.rest, b.rest, key, reader);
    }
  }

  // ---- whatever is read is a value ----

  lemma TextTotal(a: string, b: string)
    ensures TextLess(a, b) || a == b || TextLess(b, a)
  {
    if a != "" && b != "" {
      TextTotal(a[1..], b[1..]);
      assert a == [a[0]] + a[1..] && b == [b[0]] + b[1..];
    }
  }

  lemma {:induction false} InsertKeepsOrder(key: string, v: Value, members: Members, reader: Reader)
    requires Valid(v, reader) && ValidMembers(members, reader)
    ensures ValidMembers(Insert(key, v, members), reader)
    ensures forall k :: TextLess(k, key) && Before(k, members) ==> Before(k, Insert(key, v, members))
  {
    if members.Member? {
      TextTotal(key, members.key);
      if key != members.key && !TextLess(key, members.key) {
        InsertKeepsOrder(key, v, members.rest, reader);
      }
    }
  }

  /** Of two members with one key, the later one stays; the others are as they were. */
  lemma {:induction false} LaterMemberWins(key: string, v: Value, members: Members, reader: Reader)
    requires ValidMembers(members, reader)
    ensures Keys(Insert(key, v, members)) == Keys(members) + {key}
    ensures Lookup(Insert(key, v, members), key) == if key in Keys(members) then Lookup(members, key) else Some(v)
    ensures forall k :: k != key ==> Lookup(Insert(key, v, members), k) == Lookup(members, k)
  {
    if members.Member? {
      BeforeAll(members.key, members.rest, reader);
      if TextLess(key, members.key) {
        BeforeAll(key, members, reader);
      } else if key != members.key {
        LaterMemberWins(key, v, members.rest, reader);
      }
    }
  }

  /** A text that can be read holds a valid value: canonical tokens, and keys in order without repetition. */
  lemma {:induction false} ReadsValid(s: string, reader: Reader)
    requires Normalizes(reader)
    ensures ParseValue(s, reader).Some? ==> Valid(ParseValue(s, reader).value.0, reader)
    decreases |s|, 0
  {
    var t := SkipSpace(s);
    if t != "" && t[0] == '[' {
      ReadsValidItems(t[1..], reader);
    } else if t != "" && t[0] == '{' {
      ReadsValidMembers(t[1..], reader);
    }
    hide ParseItems, ParseMembers, ParseString;
  }

  lemma {:induction false} ReadsValidItems(s: string, reader: Reader)
    requires Normalizes(reader)
    ensures ParseItems(s, reader).Some? ==> ValidItems(ParseItems(s, reader).value.0, reader)
    decreases |s|, 1
  {
    ReadsValid(s, reader);
    var h := ParseValue(s, reader);
    if h.Some? {
      var t := SkipSpace(h.value.1);
      if t != "" {
        ReadsValidItems(t[1..], reader);
      }
    }
    hide ParseValue;
  }

  lemma {:induction false} ReadsValidMembers(s: string, reader: Reader)
    requires Normalizes(reader)
    ensures ParseMembers(s, reader).Some? ==> ValidMembers(ParseMembers(s, reader).value.0, reader)
    decreases |s|, 1
  {
    hide ParseValue, ParseString, Insert, Normalizes;
    if ParseMembers(s, reader).Some? {
      var k := ParseString(SkipSpace(s)[1..]).value;
      var colon := SkipSpace(k.1);
      ReadsValid(colon[1..], reader);
      var v := ParseValue(colon[1..], reader).value;
      var t := SkipSpace(v.1);
      if t[0] == '}' {
        InsertKeepsOrder(k.0, v.0, NoMembers, reader);
      } else {
        ReadsValidMembers(t[1..], reader);
        InsertKeepsOrder(k.0, v.0, ParseMembers(t[1..], reader).value.0, reader);
      }
    }
  }

  /** Writing back what was read, and reading it again, yields the same value. */
  lemma ReadWriteRead(s: string, style: Style, reader: Reader)
    requires Normalizes(reader) && Writes(style) && Loads(s, reader).Some?
    ensures Valid(Loads(s, reader).value, reader)
    ensures Loads(Dumps(Loads(s, reader).value, style), reader) == Loads(s, reader)
  {
    ReadsValid(s, reader);
    RoundTrip(Loads(s, reader).value, style, reader);
  }

  // ---- the three styles, by example ----

  lemma {:induction false} TextAppends(text: string, mode: Mode, after: string)
    ensures PrintText(text, mode, after) == PrintText(text, mode, "") + after
  {
    if text == "" {
      assert "" + after == after;
    } else {
      TextAppends(text[1..], mode, after);
    }
  }

  lemma QuotedAppends(text: string, mode: Mode, after: string)
    ensures Quoted(text, mode, after) == Quoted(text, mode, "") + after
  {
    TextAppends(text, mode, "\"" + after);
    TextAppends(text, mode, "\"" + "");
  }

  /** A pair of strings as each of the three calls writes it. */
  lemma PairStyles(a: string, b: string)
    ensures var v := Array(Item(Str(a), Item(Str(b), NoItems)));
            && Dumps(v, COMPACT) == "[" + Quoted(a, Ascii, "," + Quoted(b, Ascii, "]"))
            && Dumps(v, SPACED) == "[" + Quoted(a, Ascii, ", " + Quoted(b, Ascii, "]"))
            && Dumps(v, INDENTED) == "[\n  " + Quoted(a, Readable, ",\n  " + Quoted(b, Readable, "\n]"))
  {
    PairStyle(a, b, COMPACT);
    PairStyle(a, b, SPACED);
    PairStyle(a, b, INDENTED);
    hide Dumps, Quoted;
    assert Break(INDENTED, 0) == "\n" && Break(INDENTED, 1) == "\n  ";
    var (x, y, z) := (Quoted(b, Ascii, "]"), Quoted(b, Ascii, "]"), Quoted(b, Readable, "\n]"));
    assert "" + ("]" + "") == "]" && "\n" + ("]" + "") == "\n]";
    assert "," + ("" + ("" + x)) == "," + x && "," + (" " + ("" + y)) == ", " + y;
    assert "," + ("" + ("\n  " + z)) == ",\n  " + z;
  }

  lemma PairStyle(a: string, b: string, style: Style)
    ensures Dumps(Array(Item(Str(a), Item(Str(b), NoItems))), style)
         == "[" + (Break(style, 1) + Quoted(a, style.mode, "," + (style.itemGap + (Break(style, 1)
                   + Quoted(b, style.mode, Break(style, 0) + ("]" + ""))))))
  {
    hide Quoted, Break;
    var (last, end) := (Item(Str(b), NoItems), Break(style, 0) + ("]" + ""));
    assert PrintItems(last, style, 1, end) == Print(Str(b), style, 1, end) == Quoted(b, style.mode, end);
    var both := Item(Str(a), last);
    var next := "," + (style.itemGap + (Break(style, 1) + PrintItems(last, style, 1, end)));
    assert PrintItems(both, style, 1, end) == Print(Str(a), style, 1, next) == Quoted(a, style.mode, next);
    assert Print(Array(both), style, 0, "") == "[" + (Break(style, 1) + PrintItems(both, style, 1, end));
  }

  /** And one member of an object. */
  lemma MemberStyles(key: string, text: string)
    ensures var v := Object(Member(key, Str(text), NoMembers));
            && Dumps(v, COMPACT) == "{" + Quoted(key, Ascii, ":" + Quoted(text, Ascii, "}"))
            && Dumps(v, SPACED) == "{" + Quoted(key, Ascii, ": " + Quoted(text, Ascii, "}"))
            && Dumps(v, INDENTED) == "{\n  " + Quoted(key, Readable, ": " + Quoted(text, Readable, "\n}"))
  {
    MemberStyle(key, text, COMPACT);
    MemberStyle(key, text, SPACED);
    MemberStyle(key, text, INDENTED);
    hide Dumps, Quoted;
    assert Break(INDENTED, 0) == "\n" && Break(INDENTED, 1) == "\n  ";
    var (x, z) := (Quoted(text, Ascii, "}"), Quoted(text, Readable, "\n}"));
    assert "" + ("}" + "") == "}" && "\n" + ("}" + "") == "\n}";
    assert ":" + ("" + x) == ":" + x && ":" + (" " + x) == ": " + x && ":" + (" " + z) == ": " + z;
  }

  lemma MemberStyle(key: string, text: string, style: Style)
    ensures Dumps(Object(Member(key, Str(text), NoMembers)), style)
         == "{" + (Break(style, 1) + Quoted(key, style.mode, ":" + (style.keyGap
                   + Quoted(text, style.mode, Break(style, 0) + ("}" + "")))))
  {
    hide Quoted, Break;
    var (one, end) := (Member(key, Str(text), NoMembers), Break(style, 0) + ("}" + ""));
    assert PrintMembers(one, style, 1, end)
        == Quoted(key, style.mode, ":" + (style.keyGap + Print(Str(text), style, 1, end)));
    assert Print(Object(one), style, 0, "") == "{" + (Break(style, 1) + PrintMembers(one, style, 1, end));
  }
}
