/**
 The hash-chained audit journal: the writer that extends a file record by record, and the verifier
 that reads the file back. A file is its UTF-8 text.
 */
module Journals {
  import opened Results
  import opened Calendar
  import opened Json

  type Hash = string -> string

  function Genesis(): string {
    seq(64, _ => '0')
  }

  /** What the chain relies on: no two texts share a hash, and no hash is the genesis. */
  ghost predicate CollisionFree(hash: Hash) {
    (forall a: string, b: string :: hash(a) == hash(b) ==> a == b) && forall a: string :: hash(a) != Genesis()
  }

  // ---- records ----

  const RECORD_KEYS: set<string> := {"at", "event", "payload", "previous_hash", "record_hash"}

  function Canonical(m: Members): string {
    Dumps(Object(Without(m, "record_hash")), COMPACT)
  }

  /** The text of a member, or nothing when it is missing or not a string. */
  function TextOf(v: Option<Value>, key: string): Option<string> {
    if v.None? || !v.value.Object? then None
    else
      var x := Lookup(v.value.members, key);
      if x.Some? && x.value.Str? then Some(x.value.text) else None
  }

  /** One line, after a record with the given hash: the link is right and the hash is recomputed. */
  predicate GoodRecord(v: Option<Value>, previous: string, hash: Hash) {
    && v.Some? && v.value.Object? && Keys(v.value.members) == RECORD_KEYS
    && TextOf(v, "previous_hash") == Some(previous)
    && TextOf(v, "record_hash") == Some(hash(Canonical(v.value.members)))
  }

  const MAX_RECORDS := 1_024
  const MAX_LINE := 1_000_000
  const MAX_FILE := 10_000_000

  function CharBytes(c: char): nat {
    var n := c as int;
    if n < 0x80 then 1 else if n < 0x800 then 2 else if n < 0x10000 then 3 else 4
  }

  function Utf8Size(s: string): nat {
    if s == "" then 0 else Utf8Size(s[..|s| - 1]) + CharBytes(s[|s| - 1])
  }

  function HashBefore(lines: seq<string>, i: nat, reader: Reader): Option<string>
    requires i <= |lines|
  {
    if i == 0 then Some(Genesis()) else TextOf(Loads(lines[i - 1], reader), "record_hash")
  }

  predicate GoodLine(lines: seq<string>, i: nat, hash: Hash, reader: Reader)
    requires i < |lines|
  {
    && 0 < Utf8Size(lines[i]) <= MAX_LINE
    && HashBefore(lines, i, reader).Some?
    && GoodRecord(Loads(lines[i], reader), HashBefore(lines, i, reader).value, hash)
  }

  /** What a trustworthy journal is. */
  predicate Accepts(text: string, hash: Hash, reader: Reader) {
    var lines := SplitLines(text);
    && Utf8Size(text) <= MAX_FILE && 0 < |lines| <= MAX_RECORDS
    && forall i :: 0 <= i < |lines| ==> GoodLine(lines, i, hash, reader)
  }

  // ---- lines ----

  predicate IsBreak(c: char) {
    c == '\n' || c == '\r'
  }

  function LineEnd(s: string): (n: nat)
    ensures n <= |s| && (n < |s| ==> IsBreak(s[n])) && forall k :: 0 <= k < n ==> !IsBreak(s[k])
  {
    if s == "" || IsBreak(s[0]) then 0 else 1 + LineEnd(s[1..])
  }

  /** `bytes.splitlines()`. */
  function SplitLines(s: string): seq<string>
    decreases |s|
  {
    if s == "" then []
    else
      var n := LineEnd(s);
      if n == |s| then [s]
      else if s[n] == '\r' && n + 1 < |s| && s[n + 1] == '\n' then [s[..n]] + SplitLines(s[n + 2..])
      else [s[..n]] + SplitLines(s[n + 1..])
  }

  /** Lines, each with its own line end. */
  function WithEnds(lines: seq<string>, ends: seq<string>): string
    requires |lines| == |ends|
  {
    if lines == [] then "" else (lines[0] + ends[0]) + WithEnds(lines[1..], ends[1..])
  }

  /** Where the line end of the first line is over. */
  function AfterEnd(s: string): (m: nat)
    ensures LineEnd(s) <= m <= |s| && (s != "" ==> m > 0)
  {
    var n := LineEnd(s);
    if n == |s| then n else if s[n] == '\r' && n + 1 < |s| && s[n + 1] == '\n' then n + 2 else n + 1
  }

  lemma FirstLineOf(s: string)
    requires s != ""
    ensures SplitLines(s) == [s[..LineEnd(s)]] + SplitLines(s[AfterEnd(s)..])
  {
    if LineEnd(s) == |s| {
      assert s[..|s|] == s && s[|s|..] == "";
    }
  }

  predicate IsEnd(end: string) {
    end == "\n" || end == "\r" || end == "\r\n" || end == ""
  }

  lemma FirstEndOf(s: string)
    requires s != ""
    ensures var (n, m) := (LineEnd(s), AfterEnd(s));
            && IsEnd(s[n..m]) && (s[n..m] == "" ==> s[..n] != "" && s[m..] == "")
            && (s[n..m] == "\r" && s[m..] != "" ==> s[m] != '\n')
  {
    var (n, m) := (LineEnd(s), AfterEnd(s));
    assert m == n ==> s[n..m] == "";
    assert m == n + 1 ==> s[n..m] == [s[n]];
    assert m == n + 2 ==> s[n..m] == [s[n], s[n + 1]];
    hide LineEnd;
  }

  lemma FirstPieces(s: string)
    ensures s == (s[..LineEnd(s)] + s[LineEnd(s)..AfterEnd(s)]) + s[AfterEnd(s)..]
    ensures '\n' !in s[..LineEnd(s)] && '\r' !in s[..LineEnd(s)]
  {
    hide AfterEnd;
  }

  /**
   Lines without breaks inside, and after each a line feed, a carriage return, or both together; only
   the last may go without, and is then not empty.
   */
  predicate Ended(lines: seq<string>, ends: seq<string>)
    requires |lines| == |ends|
  {
    lines != [] ==>
      && '\n' !in lines[0] && '\r' !in lines[0] && IsEnd(ends[0])
      && (ends[0] == "" ==> |lines| == 1 && lines[0] != "")
      && (ends[0] == "\r" && |lines| > 1 && lines[1] == "" ==> ends[1] != "\n")
      && Ended(lines[1..], ends[1..])
  }

  /** Splitting a text into lines loses nothing but their ends. */
  lemma {:induction false} LinesGlueBack(s: string) returns (ends: seq<string>)
    ensures |ends| == |SplitLines(s)| && WithEnds(SplitLines(s), ends) == s && Ended(SplitLines(s), ends)
    decreases |s|
  {
    ends := [];
    if s != "" {
      var (n, m) := (LineEnd(s), AfterEnd(s));
      FirstLineOf(s);
      FirstEndOf(s);
      FirstPieces(s);
      assert s[m..] == "" ==> SplitLines(s[m..]) == [];
      hide SplitLines, LineEnd, AfterEnd;
      var rest := LinesGlueBack(s[m..]);
      var more := SplitLines(s[m..]);
      FirstChar(s[m..], more, rest);
      ends := [s[n..m]] + rest;
      var lines := SplitLines(s);
      assert ends[0] == s[n..m] && lines[0] == s[..n] && ends[1..] == rest && lines[1..] == more;
      hide WithEnds;
      assert |more| > 0 ==> ends[1] == rest[0] && lines[1] == more[0];
    }
  }

  lemma FirstChar(s: string, lines: seq<string>, ends: seq<string>)
    requires |lines| == |ends| && WithEnds(lines, ends) == s
    ensures lines != [] && lines[0] == "" && ends[0] == "\n" ==> s != "" && s[0] == '\n'
  {
  }

  function Joined(lines: seq<string>): string {
    if lines == [] then "" else Joined(lines[..|lines| - 1]) + (lines[|lines| - 1] + "\n")
  }

  predicate Unbroken(s: string) {
    forall k :: 0 <= k < |s| ==> !IsBreak(s[k])
  }

  lemma FirstLine(line: string, rest: string)
    requires Unbroken(line)
    ensures SplitLines((line + "\n") + rest) == [line] + SplitLines(rest)
  {
    var s := (line + "\n") + rest;
    assert s[|line|] == '\n' && forall k :: 0 <= k < |line| ==> s[k] == line[k];
    assert LineEnd(s) == |line|;
    assert s[..|line|] == line && s[|line| + 1..] == rest;
  }

  lemma {:induction false} JoinedFirst(lines: seq<string>)
    requires lines != []
    ensures Joined(lines) == (lines[0] + "\n") + Joined(lines[1..])
  {
    if |lines| == 1 {
      assert lines[..0] == [] && lines[1..] == [];
    } else {
      var (front, rest, last) := (lines[..|lines| - 1], lines[1..], lines[|lines| - 1]);
      JoinedFirst(front);
      assert rest[..|rest| - 1] == front[1..] && rest[|rest| - 1] == last && front[0] == lines[0];
      assert Joined(rest) == Joined(front[1..]) + (last + "\n") && Joined(lines) == Joined(front) + (last + "\n");
      hide Joined;
    }
  }

  lemma {:induction false} SplitJoined(lines: seq<string>)
    requires forall k :: 0 <= k < |lines| ==> Unbroken(lines[k])
    ensures SplitLines(Joined(lines)) == lines
  {
    if lines != [] {
      JoinedFirst(lines);
      FirstLine(lines[0], Joined(lines[1..]));
      SplitJoined(lines[1..]);
      assert lines == [lines[0]] + lines[1..];
    }
  }

  // ---- the verifier ----

  lemma SizeOfText(s: string)
    ensures Utf8Size(s) == 0 <==> s == ""
  {
  }

  /** One turn of the verifier's loop: the record and its hash, or nothing when it raises. */
  method CheckLine(line: string, expectedPrevious: string, hash: Hash, reader: Reader)
      returns (r: Option<(Value, string)>)
    ensures r.Some? <==> 0 < Utf8Size(line) <= MAX_LINE && GoodRecord(Loads(line, reader), expectedPrevious, hash)
    ensures r.Some? ==>
        Loads(line, reader) == Some(r.value.0) && TextOf(Some(r.value.0), "record_hash") == Some(r.value.1)
  {
    hide Utf8Size, Loads, Canonical, Keys, Lookup;
    SizeOfText(line);
    if line == "" || Utf8Size(line) > MAX_LINE {
      return None;
    }
    var record := Loads(line, reader);
    if record.None? || !record.value.Object? || Keys(record.value.members) != RECORD_KEYS {
      return None;
    }
    if TextOf(record, "previous_hash") != Some(expectedPrevious) {
      return None;
    }
    var claimed := TextOf(record, "record_hash");
    var calculated := hash(Canonical(record.value.members));
    if claimed != Some(calculated) {
      return None;
    }
    r := Some((record.value, claimed.value));
  }

  /** `verify_audit_journal`: the records of a journal that it accepts. */
  method VerifyAuditJournal(text: string, hash: Hash, reader: Reader) returns (r: Option<seq<Value>>)
    ensures r.Some? <==> Accepts(text, hash, reader)
    ensures r.Some? ==> |r.value| == |SplitLines(text)| && 0 < |r.value| <= 1_024 && Utf8Size(text) <= 10_000_000
    ensures r.Some? ==> forall i :: 0 <= i < |r.value| ==> 0 < Utf8Size(SplitLines(text)[i]) <= 1_000_000
    ensures r.Some? ==> forall i :: 0 <= i < |r.value| ==> Loads(SplitLines(text)[i], reader) == Some(r.value[i])
  {
    hide Utf8Size, Loads, GoodRecord, SplitLines, TextOf;
    if Utf8Size(text) > MAX_FILE {
      return None;
    }
    var lines := SplitLines(text);
    if lines == [] || |lines| > MAX_RECORDS {
      return None;
    }
    var expectedPrevious := Genesis();
    var records: seq<Value> := [];
    for i := 0 to |lines|
      invariant |records| == i && HashBefore(lines, i, reader) == Some(expectedPrevious)
      invariant forall j :: 0 <= j < i ==> GoodLine(lines, j, hash, reader)
      invariant forall j :: 0 <= j < i ==> Loads(lines[j], reader) == Some(records[j])
    {
      var checked := CheckLine(lines[i], expectedPrevious, hash, reader);
      if checked.None? {
        assert !GoodLine(lines, i, hash, reader);
        return None;
      }
      records := records + [checked.value.0];
      expectedPrevious := checked.value.1;
    }
    assert forall i :: 0 <= i < |lines| ==> GoodLine(lines, i, hash, reader) ==> 0 < Utf8Size(lines[i]) <= 1_000_000;
    r := Some(records);
  }

  // ---- the writer ----

  datatype Entry = Entry(at: string, event: string, payload: Value)

  function FourMembers(at: Value, event: Value, payload: Value, link: Value): Members {
    Member("at", at, Member("event", event, Member("payload", payload, Member("previous_hash", link, NoMembers))))
  }

  function FiveMembers(at: Value, event: Value, payload: Value, link: Value, own: Value): Members {
    Member("at", at, Member("event", event, Member("payload", payload,
      Member("previous_hash", link, Member("record_hash", own, NoMembers)))))
  }

  function Unsigned(e: Entry, previous: string): Members {
    FourMembers(Str(e.at), Str(e.event), e.payload, Str(previous))
  }

  function RecordHash(e: Entry, previous: string, hash: Hash): string {
    hash(Dumps(Object(Unsigned(e, previous)), COMPACT))
  }

  function Signed(e: Entry, previous: string, recordHash: string): Members {
    FiveMembers(Str(e.at), Str(e.event), e.payload, Str(previous), Str(recordHash))
  }

  function Line(e: Entry, previous: string, hash: Hash): string {
    Dumps(Object(Signed(e, previous, RecordHash(e, previous, hash))), SPACED)
  }

  function LastHash(entries: seq<Entry>, hash: Hash): string {
    if entries == [] then Genesis()
    else RecordHash(entries[|entries| - 1], LastHash(entries[..|entries| - 1], hash), hash)
  }

  function Lines(entries: seq<Entry>, hash: Hash): seq<string> {
    if entries == [] then []
    else
      var front := entries[..|entries| - 1];
      Lines(front, hash) + [Line(entries[|entries| - 1], LastHash(front, hash), hash)]
  }

  class AuditJournal {
    const hash: Hash
    var file: string
    var previousHash: string
    /** The records appended so far, and whether an append failed after writing to the file. */
    ghost var entries: seq<Entry>
    ghost var torn: bool

    ghost predicate Valid()
      reads this
    {
      previousHash == LastHash(entries, hash) && (!torn ==> file == Joined(Lines(entries, hash)))
    }

    constructor (hash: Hash)
      ensures Valid() && this.hash == hash && entries == [] && !torn
    {
      this.hash, file, previousHash, entries, torn := hash, "", Genesis(), [], false;
    }

    /** The write loop: `os.write` may take any number of bytes, and the file grows by what it took. */
    method WriteAll(line: string) returns (complete: bool)
      modifies this`file
      ensures old(file) <= file <= old(file) + line
      ensures complete ==> file == old(file) + line
    {
      var pending := line;
      assert line[..0] == "" && line[..|line|] == line;
      while pending != ""
        invariant |pending| <= |line| && pending == line[|line| - |pending|..]
        invariant file == old(file) + line[..|line| - |pending|]
        decreases |pending|
      {
        var written: int := *;
        if written < 1 {
          return false;
        }
        if written > |pending| {
          written := |pending|;
        }
        file := file + pending[..written];
        pending := pending[written..];
      }
      complete := true;
    }

    /** The record hash, or nothing when the file could not be opened, written or synced. */
    method Append(at: string, event: string, payload: Value) returns (r: Option<string>)
      requires Valid()
      modifies this
      ensures Valid()
      ensures r.Some? ==>
          entries == old(entries) + [Entry(at, event, payload)] && r.value == previousHash && torn == old(torn)
      ensures r.None? ==> entries == old(entries) && previousHash == old(previousHash)
      ensures r.None? && !torn ==> file == old(file)
      ensures old(file) <= file <= old(file) + (Line(Entry(at, event, payload), old(previousHash), hash) + "\n")
    {
      var e := Entry(at, event, payload);
      AppendedLine(entries, e, hash);
      hide LastHash, Lines, Joined, Dumps;
      var canonical := Dumps(Object(Unsigned(e, previousHash)), COMPACT);
      var recordHash := hash(canonical);
      var line := Dumps(Object(Signed(e, previousHash, recordHash)), SPACED) + "\n";
      var opens: bool := *;
      if !opens {
        return None;
      }
      var complete := WriteAll(line);
      var synced: bool := *;
      if !complete || !synced {
        torn := torn || file != old(file);
        return None;
      }
      entries := entries + [e];
      previousHash := recordHash;
      r := Some(recordHash);
    }
  }

  /** What one more record adds. */
  lemma AppendedLine(entries: seq<Entry>, e: Entry, hash: Hash)
    ensures var (previous, more) := (LastHash(entries, hash), entries + [e]);
            && LastHash(more, hash) == RecordHash(e, previous, hash)
            && Joined(Lines(more, hash)) == Joined(Lines(entries, hash)) + (Line(e, previous, hash) + "\n")
  {
    hide Line;
    assert (entries + [e])[..|entries|] == entries;
    var lines := Lines(entries, hash);
    assert (lines + [Line(e, LastHash(entries, hash), hash)])[..|lines|] == lines;
  }

  // ---- what the writer builds, the verifier accepts ----

  predicate Plain(s: string) {
    forall k :: 0 <= k < |s| ==> ' ' <= s[k] <= '~'
  }

  lemma {:induction false} PlainSize(s: string)
    requires Plain(s)
    ensures Utf8Size(s) == |s|
  {
    if s != "" {
      PlainSize(s[..|s| - 1]);
    }
  }

  lemma PlainHex(n: nat)
    requires n < 0x10000
    ensures Plain(UnicodeEscape(n))
  {
  }

  lemma PlainEscape(c: char)
    ensures Plain(EscapeChar(c, Ascii))
  {
    hide UnicodeEscape;
    var n := c as int;
    if n < 0x10000 {
      PlainHex(n);
    } else {
      PlainHex(0xD800 + (n - 0x10000) / 0x400);
      PlainHex(0xDC00 + (n - 0x10000) % 0x400);
    }
  }

  lemma {:induction false} PlainText(text: string, after: string)
    requires Plain(after)
    ensures Plain(PrintText(text, Ascii, after))
  {
    hide EscapeChar;
    if text != "" {
      PlainEscape(text[0]);
      PlainText(text[1..], after);
    }
  }

  predicate PlainStyle(style: Style) {
    style.mode.Ascii? && !style.indent && Plain(style.itemGap) && Plain(style.keyGap)
  }

  /** Texts in the two journal styles are printable ASCII: no line breaks, one byte a character. */
  lemma {:induction false} PlainPrint(v: Value, style: Style, level: nat, after: string, reader: Reader)
    requires Valid(v, reader) && PlainStyle(style) && Plain(after)
    ensures Plain(Print(v, style, level, after))
  {
    match v
    case Scalar(t) =>
      assert Plain(t);
    case Str(text) => PlainText(text, "\"" + after);
    case Array(items) =>
      if items.Item? {
        PlainItems(items, style, level + 1, Break(style, level) + ("]" + after), reader);
      }
    case Object(members) =>
      if members.Member? {
        PlainMembers(members, style, level + 1, Break(style, level) + ("}" + after), reader);
      }
  }

  lemma {:induction false} PlainItems(items: Items, style: Style, level: nat, after: string, reader: Reader)
    requires items.Item? && ValidItems(items, reader) && PlainStyle(style) && Plain(after)
    ensures Plain(PrintItems(items, style, level, after))
  {
    if items.tail.Item? {
      PlainItems(items.tail, style, level, after, reader);
      var more := PrintItems(items.tail, style, level, after);
      PlainPrint(items.head, style, level, "," + (style.itemGap + (Break(style, level) + more)), reader);
    } else {
      PlainPrint(items.head, style, level, after, reader);
    }
  }

  lemma {:induction false} PlainMembers(members: Members, style: Style, level: nat, after: string, reader: Reader)
    requires members.Member? && ValidMembers(members, reader) && PlainStyle(style) && Plain(after)
    ensures Plain(PrintMembers(members, style, level, after))
  {
    var next := if members.rest.NoMembers? then after
                else "," + (style.itemGap + (Break(style, level) + PrintMembers(members.rest, style, level, after)));
    if members.rest.Member? {
      PlainMembers(members.rest, style, level, after, reader);
    }
    var v := Print(members.value, style, level, next);
    PlainPrint(members.value, style, level, next, reader);
    PlainText(members.key, "\"" + (":" + (style.keyGap + v)));
  }

  lemma RecordKeysAscend()
    ensures TextLess("at", "event") && TextLess("event", "payload")
    ensures TextLess("payload", "previous_hash") && TextLess("previous_hash", "record_hash")
  {
  }

  lemma FiveFields(at: Value, event: Value, payload: Value, link: Value, own: Value)
    ensures var m := FiveMembers(at, event, payload, link, own);
            && Keys(m) == RECORD_KEYS && Without(m, "record_hash") == FourMembers(at, event, payload, link)
            && Lookup(m, "previous_hash") == Some(link) && Lookup(m, "record_hash") == Some(own)
  {
    var five := Member("record_hash", own, NoMembers);
    var four := Member("previous_hash", link, five);
    var three := Member("payload", payload, four);
    var two := Member("event", event, three);
    assert Keys(five) == {"record_hash"} && Keys(four) == {"previous_hash", "record_hash"};
    assert Keys(three) == {"payload", "previous_hash", "record_hash"};
    assert Keys(two) == {"event", "payload", "previous_hash", "record_hash"};
    assert Without(five, "record_hash") == NoMembers;
    assert Without(three, "record_hash") == Member("payload", payload, Member("previous_hash", link, NoMembers));
    assert Lookup(four, "record_hash") == Some(own) && Lookup(three, "record_hash") == Some(own);
    assert Lookup(four, "previous_hash") == Some(link) && Lookup(three, "previous_hash") == Some(link)
        && Lookup(two, "previous_hash") == Some(link);
  }

  /** The record that the writer signs is the one that the verifier takes apart. */
  lemma SignedRecord(e: Entry, previous: string, recordHash: string, reader: Reader)
    requires Valid(e.payload, reader)
    ensures var m := Signed(e, previous, recordHash);
            && ValidMembers(m, reader) && Keys(m) == RECORD_KEYS && Without(m, "record_hash") == Unsigned(e, previous)
            && Lookup(m, "previous_hash") == Some(Str(previous)) && Lookup(m, "record_hash") == Some(Str(recordHash))
  {
    RecordKeysAscend();
    FiveFields(Str(e.at), Str(e.event), e.payload, Str(previous), Str(recordHash));
    var five := Member("record_hash", Str(recordHash), NoMembers);
    var four := Member("previous_hash", Str(previous), five);
    var three := Member("payload", e.payload, four);
    assert ValidMembers(NoMembers, reader) && ValidMembers(five, reader) && ValidMembers(four, reader);
    assert ValidMembers(three, reader) && ValidMembers(Member("event", Str(e.event), three), reader);
  }

  lemma LineIsGood(e: Entry, previous: string, hash: Hash, reader: Reader)
    requires Valid(e.payload, reader)
    ensures var v := Loads(Line(e, previous, hash), reader);
            GoodRecord(v, previous, hash) && TextOf(v, "record_hash") == Some(RecordHash(e, previous, hash))
    ensures var line := Line(e, previous, hash); Plain(line) && line != ""
  {
    var recordHash := RecordHash(e, previous, hash);
    SignedRecord(e, previous, recordHash, reader);
    RoundTrip(Object(Signed(e, previous, recordHash)), SPACED, reader);
    PlainPrint(Object(Signed(e, previous, recordHash)), SPACED, 0, "", reader);
  }

  ghost predicate ValidEntries(entries: seq<Entry>, reader: Reader) {
    forall k :: 0 <= k < |entries| ==> Valid(entries[k].payload, reader)
  }

  lemma {:induction false} LinesAt(entries: seq<Entry>, k: nat, hash: Hash)
    requires k < |entries|
    ensures |Lines(entries, hash)| == |entries|
    ensures Lines(entries, hash)[k] == Line(entries[k], LastHash(entries[..k], hash), hash)
    ensures Lines(entries, hash)[..k] == Lines(entries[..k], hash)
  {
    LinesLength(entries, hash);
    LinesLength(entries[..|entries| - 1], hash);
    if k < |entries| - 1 {
      LinesAt(entries[..|entries| - 1], k, hash);
      assert entries[..|entries| - 1][..k] == entries[..k];
    }
  }

  lemma {:induction false} LinesLength(entries: seq<Entry>, hash: Hash)
    ensures |Lines(entries, hash)| == |entries|
  {
    if entries != [] {
      LinesLength(entries[..|entries| - 1], hash);
    }
  }

  /** Every line that the writer has appended is good where it stands. */
  lemma WrittenLineIsGood(entries: seq<Entry>, k: nat, hash: Hash, reader: Reader)
    requires k < |entries| && ValidEntries(entries, reader)
    requires |Lines(entries, hash)| == |entries| && |Lines(entries, hash)[k]| <= MAX_LINE
    ensures GoodLine(Lines(entries, hash), k, hash, reader)
    ensures Plain(Lines(entries, hash)[k]) && Unbroken(Lines(entries, hash)[k])
  {
    hide Line, GoodRecord, Loads, Lines;
    var previous := LastHash(entries[..k], hash);
    LinesAt(entries, k, hash);
    LineIsGood(entries[k], previous, hash, reader);
    PlainSize(Lines(entries, hash)[k]);
    if k > 0 {
      LinesAt(entries, k - 1, hash);
      LineIsGood(entries[k - 1], LastHash(entries[..k - 1], hash), hash, reader);
      assert entries[..k][..k - 1] == entries[..k - 1];
    }
  }

  lemma {:induction false} JoinedSize(lines: seq<string>)
    requires forall k :: 0 <= k < |lines| ==> Plain(lines[k])
    ensures Utf8Size(Joined(lines)) == |Joined(lines)|
  {
    if lines != [] {
      var (front, last) := (Joined(lines[..|lines| - 1]), lines[|lines| - 1]);
      JoinedSize(lines[..|lines| - 1]);
      PlainSize(last);
      SizeOfBoth(front, last);
      SizeOfBoth(front + last, "\n");
      assert front + (last + "\n") == (front + last) + "\n";
    }
  }

  lemma {:induction false} SizeOfBoth(a: string, b: string)
    ensures Utf8Size(a + b) == Utf8Size(a) + Utf8Size(b)
  {
    if b == "" {
      assert a + b == a;
    } else {
      SizeOfBoth(a, b[..|b| - 1]);
      assert (a + b)[..|a + b| - 1] == a + b[..|b| - 1];
    }
  }

  /** Any journal of successful appends to a fresh file is accepted, if it is within the verifier's limits. */
  lemma WrittenJournalIsAccepted(entries: seq<Entry>, hash: Hash, reader: Reader)
    requires ValidEntries(entries, reader) && 0 < |entries| <= 1_024 && |Joined(Lines(entries, hash))| <= 10_000_000
    requires forall k :: 0 <= k < |Lines(entries, hash)| ==> |Lines(entries, hash)[k]| <= 1_000_000
    ensures Accepts(Joined(Lines(entries, hash)), hash, reader)
  {
    var lines := Lines(entries, hash);
    LinesLength(entries, hash);
    hide GoodLine, Lines, Joined, Utf8Size, Plain, Unbroken, SplitLines, Valid;
    forall k | 0 <= k < |lines|
      ensures GoodLine(lines, k, hash, reader) && Plain(lines[k]) && Unbroken(lines[k])
    {
      WrittenLineIsGood(entries, k, hash, reader);
    }
    SplitJoined(lines);
    JoinedSize(lines);
  }

  // ---- the last hash fixes the journal ----

  /** The record of a line of an accepted journal. */
  function RecordAt(lines: seq<string>, i: nat, reader: Reader): Option<Value>
    requires i < |lines|
  {
    Loads(lines[i], reader)
  }

  /** Two good records with one hash are one record. */
  lemma SameHashSameRecord(a: Option<Value>, b: Option<Value>, before: string,
                           previous: string, hash: Hash, reader: Reader)
    requires CollisionFree(hash) && GoodRecord(a, before, hash) && GoodRecord(b, previous, hash)
    requires Valid(a.value, reader) && Valid(b.value, reader) && TextOf(a, "record_hash") == TextOf(b, "record_hash")
    ensures a == b && before == previous
  {
    var (m, n) := (a.value.members, b.value.members);
    WithoutIsValid(m, "record_hash", reader);
    WithoutIsValid(n, "record_hash", reader);
    DumpsInjective(Object(Without(m, "record_hash")), Object(Without(n, "record_hash")), COMPACT, reader);
    EntryAndRemainder(m, n, "record_hash", reader);
  }

  lemma {:induction false} ChainsAgree(a: seq<string>, b: seq<string>, n: nat, m: nat, hash: Hash, reader: Reader)
    requires CollisionFree(hash) && Normalizes(reader) && n <= |a| && m <= |b|
    requires forall i :: 0 <= i < n ==> GoodLine(a, i, hash, reader)
    requires forall i :: 0 <= i < m ==> GoodLine(b, i, hash, reader)
    requires HashBefore(a, n, reader) == HashBefore(b, m, reader)
    ensures n == m && forall i :: 0 <= i < n ==> RecordAt(a, i, reader) == RecordAt(b, i, reader)
  {
    hide Loads, TextOf, CollisionFree, Valid, Utf8Size, Keys;
    if n > 0 && m > 0 {
      assert GoodLine(a, n - 1, hash, reader) && GoodLine(b, m - 1, hash, reader);
      LoadsValid(a[n - 1], reader);
      LoadsValid(b[m - 1], reader);
      SameHashSameRecord(Loads(a[n - 1], reader), Loads(b[m - 1], reader),
                         HashBefore(a, n - 1, reader).value, HashBefore(b, m - 1, reader).value, hash, reader);
      ChainsAgree(a, b, n - 1, m - 1, hash, reader);
    } else if n > 0 {
      NoHashIsGenesis(a, n, hash, reader);
    } else if m > 0 {
      NoHashIsGenesis(b, m, hash, reader);
    }
  }

  lemma LoadsValid(s: string, reader: Reader)
    requires Normalizes(reader)
    ensures Loads(s, reader).Some? ==> Valid(Loads(s, reader).value, reader)
  {
    ReadsValid(s, reader);
  }

  lemma NoHashIsGenesis(a: seq<string>, n: nat, hash: Hash, reader: Reader)
    requires CollisionFree(hash) && 0 < n <= |a| && GoodLine(a, n - 1, hash, reader)
    ensures HashBefore(a, n, reader) != Some(Genesis())
  {
  }

  /**
   Two accepted journals with the same last record hash hold the same records, one by one: every
   edit, insertion, removal or reordering before the last record changes the last hash.
   */
  lemma LastHashFixesJournal(a: string, b: string, hash: Hash, reader: Reader)
    requires CollisionFree(hash) && Normalizes(reader) && Accepts(a, hash, reader) && Accepts(b, hash, reader)
    requires HashBefore(SplitLines(a), |SplitLines(a)|, reader) == HashBefore(SplitLines(b), |SplitLines(b)|, reader)
    ensures |SplitLines(a)| == |SplitLines(b)|
    ensures forall i :: 0 <= i < |SplitLines(a)| ==>
        RecordAt(SplitLines(a), i, reader) == RecordAt(SplitLines(b), i, reader)
  {
    ChainsAgree(SplitLines(a), SplitLines(b), |SplitLines(a)|, |SplitLines(b)|, hash, reader);
  }

  /** A second journal object starts at the genesis again: on a file that holds records, what it appends is rejected. */
  lemma ReopenedJournalIsRejected(entries: seq<Entry>, e: Entry, hash: Hash, reader: Reader)
    requires CollisionFree(hash) && entries != [] && ValidEntries(entries, reader) && Valid(e.payload, reader)
    ensures !Accepts(Joined(Lines(entries, hash) + [Line(e, Genesis(), hash)]), hash, reader)
  {
    var n := |entries|;
    var lines := Lines(entries, hash) + [Line(e, Genesis(), hash)];
    LinesAt(entries, n - 1, hash);
    LineIsGood(e, Genesis(), hash, reader);
    LineIsGood(entries[n - 1], LastHash(entries[..n - 1], hash), hash, reader);
    var before := LastHash(entries[..n - 1], hash);
    assert TextOf(Loads(lines[n - 1], reader), "record_hash") == Some(RecordHash(entries[n - 1], before, hash));
    assert TextOf(Loads(lines[n], reader), "previous_hash") == Some(Genesis());
    hide Line, Lines, Joined, SplitLines, Loads, Utf8Size, LastHash, TextOf, Plain;
    forall k | 0 <= k < |lines|
      ensures Unbroken(lines[k])
    {
      WrittenLineUnbroken(entries, e, k, hash, reader);
    }
    assert !GoodLine(lines, n, hash, reader);
    hide GoodLine, Unbroken;
    SplitJoined(lines);
  }

  lemma WrittenLineUnbroken(entries: seq<Entry>, e: Entry, k: nat, hash: Hash, reader: Reader)
    requires ValidEntries(entries, reader) && Valid(e.payload, reader)
    requires k <= |entries| && |Lines(entries, hash)| == |entries|
    ensures Unbroken((Lines(entries, hash) + [Line(e, Genesis(), hash)])[k])
  {
    hide Line, Lines, LastHash, GoodRecord;
    if k < |entries| {
      LinesAt(entries, k, hash);
      LineIsGood(entries[k], LastHash(entries[..k], hash), hash, reader);
    } else {
      LineIsGood(e, Genesis(), hash, reader);
    }
  }

  /** What the verifier returns for a record that was written: the entry itself, linked to the record before it. */
  lemma WrittenRecordReadsBack(entries: seq<Entry>, k: nat, hash: Hash, reader: Reader)
    requires k < |entries| && ValidEntries(entries, reader) && |Lines(entries, hash)| == |entries|
    ensures var v := RecordAt(Lines(entries, hash), k, reader);
            && v.Some? && v.value.Object? && Keys(v.value.members) == RECORD_KEYS
            && Lookup(v.value.members, "at") == Some(Str(entries[k].at))
            && Lookup(v.value.members, "event") == Some(Str(entries[k].event))
            && Lookup(v.value.members, "payload") == Some(entries[k].payload)
            && Lookup(v.value.members, "previous_hash") == Some(Str(LastHash(entries[..k], hash)))
            && Lookup(v.value.members, "record_hash") == Some(Str(LastHash(entries[..k + 1], hash)))
  {
    assert Valid(entries[k].payload, reader);
    hide *;
    HashOfOneMore(entries, k, hash);
    LineReadsBack(entries, k, hash, reader);
    SignedRecord(entries[k], LastHash(entries[..k], hash), LastHash(entries[..k + 1], hash), reader);
    SignedFields(entries[k], LastHash(entries[..k], hash), LastHash(entries[..k + 1], hash));
  }

  lemma HashOfOneMore(entries: seq<Entry>, k: nat, hash: Hash)
    requires k < |entries|
    ensures LastHash(entries[..k + 1], hash) == RecordHash(entries[k], LastHash(entries[..k], hash), hash)
  {
    assert entries[..k + 1][..k] == entries[..k];
    hide RecordHash;
  }

  lemma LineReadsBack(entries: seq<Entry>, k: nat, hash: Hash, reader: Reader)
    requires k < |entries| && ValidEntries(entries, reader) && |Lines(entries, hash)| == |entries|
    ensures RecordAt(Lines(entries, hash), k, reader) ==
            Some(Object(Signed(entries[k], LastHash(entries[..k], hash), LastHash(entries[..k + 1], hash))))
  {
    var previous := LastHash(entries[..k], hash);
    LinesAt(entries, k, hash);
    HashOfOneMore(entries, k, hash);
    hide Loads, Dumps, Signed, Valid, Lookup, Keys, RecordHash, LastHash;
    SignedRecord(entries[k], previous, RecordHash(entries[k], previous, hash), reader);
    RoundTrip(Object(Signed(entries[k], previous, RecordHash(entries[k], previous, hash))), SPACED, reader);
  }

  lemma SignedFields(e: Entry, previous: string, recordHash: string)
    ensures var m := Signed(e, previous, recordHash);
            && Lookup(m, "at") == Some(Str(e.at)) && Lookup(m, "event") == Some(Str(e.event))
            && Lookup(m, "payload") == Some(e.payload)
  {
    var m := Signed(e, previous, recordHash);
    assert Lookup(m.rest, "event") == Some(Str(e.event)) && Lookup(m.rest.rest, "payload") == Some(e.payload);
    assert Lookup(m.rest, "payload") == Lookup(m.rest.rest, "payload");
  }

  // ---- what a good record is ----

  /** The members of a record that is linked to `previous` and carries its own hash. */
  function Linked(at: Value, event: Value, payload: Value, previous: string, hash: Hash): Members {
    var link := Str(previous);
    FiveMembers(at, event, payload, link, Str(hash(Dumps(Object(FourMembers(at, event, payload, link)), COMPACT))))
  }

  /** The least key comes first. */
  lemma LeastIsFirst(m: Members, key: string, reader: Reader)
    requires ValidMembers(m, reader) && key in Keys(m) && forall k :: k in Keys(m) && k != key ==> TextLess(key, k)
    ensures m.Member? && m.key == key && ValidMembers(m.rest, reader) && Keys(m.rest) == Keys(m) - {key}
  {
    BeforeAll(m.key, m.rest, reader);
    if m.key != key {
      TextTransitive(key, m.key, key);
      TextIrreflexive(key);
    }
  }

  /** No dictionary but one of these five members has these five keys. */
  lemma FiveKeys(m: Members, reader: Reader) returns (at: Value, event: Value, payload: Value, link: Value, own: Value)
    requires ValidMembers(m, reader) && Keys(m) == RECORD_KEYS
    ensures m == FiveMembers(at, event, payload, link, own)
  {
    FiveKeysAscend();
    hide TextLess, ValidMembers;
    LeastIsFirst(m, "at", reader);
    LeastIsFirst(m.rest, "event", reader);
    LeastIsFirst(m.rest.rest, "payload", reader);
    LeastIsFirst(m.rest.rest.rest, "previous_hash", reader);
    var last := m.rest.rest.rest.rest;
    LeastIsFirst(last, "record_hash", reader);
    assert Keys(last.rest) == {};
    at, event, payload := m.value, m.rest.value, m.rest.rest.value;
    link, own := m.rest.rest.rest.value, last.value;
  }

  lemma FiveKeysAscend()
    ensures forall k :: k in RECORD_KEYS && k != "at" ==> TextLess("at", k)
    ensures forall k :: k in RECORD_KEYS - {"at", "event"} ==> TextLess("event", k)
    ensures forall k :: k in RECORD_KEYS - {"at", "event", "payload"} ==> TextLess("payload", k)
    ensures TextLess("previous_hash", "record_hash")
  {
    RecordKeysAscend();
    TextTransitive("payload", "previous_hash", "record_hash");
    TextTransitive("event", "payload", "previous_hash");
    TextTransitive("event", "payload", "record_hash");
    TextTransitive("at", "event", "payload");
    TextTransitive("at", "event", "previous_hash");
    TextTransitive("at", "event", "record_hash");
  }

  /**
   A line is good exactly if the writer could have written its members: the five, with some values
   under the first three, the expected link, and the hash of the other four.
   */
  lemma GoodExactlyIfLinked(m: Members, previous: string, hash: Hash, reader: Reader)
    requires ValidMembers(m, reader)
    ensures GoodRecord(Some(Object(m)), previous, hash)
       <==> exists at, event, payload :: m == Linked(at, event, payload, previous, hash)
  {
    if GoodRecord(Some(Object(m)), previous, hash) {
      var at, event, payload, link, own := FiveKeys(m, reader);
      FiveFields(at, event, payload, link, own);
      assert m == Linked(at, event, payload, previous, hash);
    }
    forall at, event, payload | m == Linked(at, event, payload, previous, hash)
      ensures GoodRecord(Some(Object(m)), previous, hash)
    {
      var link := Str(previous);
      var own := hash(Dumps(Object(FourMembers(at, event, payload, link)), COMPACT));
      FiveFields(at, event, payload, link, Str(own));
      hide Dumps, FourMembers, FiveMembers;
    }
  }
}
