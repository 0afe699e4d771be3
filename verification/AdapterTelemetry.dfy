/**
 The incremental reader of adapter telemetry.  A file that only grows is polled while the adapter
 runs; each poll consumes the lines that have become complete.  JSON decoding and the check of one
 `observed_at` against the clock are a fixed function of the line.
 */
module AdapterTelemetry {
  import opened Results

  type Byte = bv8

  const NEWLINE: Byte := 10
  const MAX_BYTES := 65536
  const MAX_LINE_BYTES := 4096
  const MAX_EVENTS := 1024
  const MAX_TOKENS := 1_000_000_000

  // ---- events ----

  /** A field that is absent or of the wrong type is `None`; so is an unacceptable time. */
  datatype Body =
    | Checkin(fieldsValid: bool, provider: string, model: string, observedAt: Option<int>)
    | Heartbeat(fieldsValid: bool, observedAt: Option<int>)
    | Usage(fieldsValid: bool, input: Option<int>, output: Option<int>, cached: Option<int>, reasoning: Option<int>,
            total: Option<int>, source: string, exact: Option<bool>, final: bool, observedAt: Option<int>)
    | Unsupported

  datatype Event = Event(sequence: Option<int>, versionValid: bool, body: Body)

  datatype Agent = Agent(provider: string, model: string, allowSynthetic: bool,
                         checkinRequired: bool, usageRequired: bool)

  predicate Count(v: Option<int>) {
    v.Some? && 0 <= v.value <= MAX_TOKENS
  }

  /** An arithmetically consistent, final receipt whose exactness fits its source. */
  predicate ConsistentUsage(a: Agent, u: Body)
    requires u.Usage?
  {
    && u.fieldsValid && u.observedAt.Some?
    && Count(u.input) && Count(u.output) && Count(u.cached) && Count(u.reasoning) && Count(u.total)
    && u.cached.value <= u.input.value
    && u.reasoning.value <= u.output.value
    && u.total.value == u.input.value + u.output.value
    && u.source in {"provider_response", "broker_attested", "adapter_reported", "estimated", "synthetic"}
    && u.exact.Some? && u.final
    && (u.source == "synthetic" ==> a.allowSynthetic)
    && (u.source == "estimated" ==> !u.exact.value)
    && (u.source in {"provider_response", "broker_attested"} ==> u.exact.value)
  }

  predicate MatchingCheckin(a: Agent, b: Body)
    requires b.Checkin?
  {
    b.fieldsValid && b.provider == a.provider && b.model == a.model && b.observedAt.Some?
  }

  /** What the monitor remembers of the lines that it has consumed. */
  datatype Progress = Progress(
    sequence: nat, checkinAt: Option<int>, lastBeat: Option<int>, usage: Option<Body>, emitted: seq<Event>)

  const START := Progress(0, None, None, None, [])

  /** `_consume` after decoding: the progress, or none where the source raises. */
  function Consume(a: Agent, p: Progress, e: Event): Option<Progress> {
    if e.sequence != Some(p.sequence + 1) || p.sequence + 1 > MAX_EVENTS then None
    else if !e.versionValid || e.body.Unsupported? then None
    else if p.sequence == 0 && !e.body.Checkin? then None
    else
      var q := p.(sequence := p.sequence + 1, emitted := p.emitted + [e]);
      match e.body
      case Checkin(_, _, _, at) =>
        if p.checkinAt.Some? || !MatchingCheckin(a, e.body) then None
        else Some(q.(checkinAt := at, lastBeat := at))
      case Heartbeat(valid, at) =>
        if !valid || p.checkinAt.None? || at.None? || (p.lastBeat.Some? && at.value < p.lastBeat.value) then None
        else Some(q.(lastBeat := at))
      case Usage(_, _, _, _, _, _, _, _, _, _) =>
        if p.checkinAt.None? || p.usage.Some? || !ConsistentUsage(a, e.body) then None
        else Some(q.(usage := Some(e.body)))
  }

  /** `_validate_sequence` advances the number first: a line that is refused later keeps it taken. */
  function AfterRefusal(p: Progress, e: Event): Progress {
    if e.sequence == Some(p.sequence + 1) then p.(sequence := p.sequence + 1) else p
  }

  /** Decoding a line: none for a line that is not a bounded strict JSON object. */
  type Decoder = seq<Byte> -> Option<Event>

  function Decoded(decode: Decoder, line: seq<Byte>): Option<Event> {
    if line == [] || |line| > MAX_LINE_BYTES then None else decode(line)
  }

  /** Consuming lines in order: how many were accepted, and whether all were. */
  datatype Outcome = Outcome(progress: Progress, accepted: nat, ok: bool)

  function ConsumeLine(a: Agent, decode: Decoder, o: Outcome, line: seq<Byte>): Outcome {
    if !o.ok then o
    else
      var e := Decoded(decode, line);
      var p := if e.Some? then Consume(a, o.progress, e.value) else None;
      if p.Some? then Outcome(p.value, o.accepted + 1, true)
      else Outcome(if e.Some? then AfterRefusal(o.progress, e.value) else o.progress, o.accepted, false)
  }

  function ConsumeLines(a: Agent, decode: Decoder, o: Outcome, lines: seq<seq<Byte>>): Outcome {
    if lines == [] then o
    else ConsumeLine(a, decode, ConsumeLines(a, decode, o, lines[..|lines| - 1]), lines[|lines| - 1])
  }

  // ---- splitting ----

  datatype Parts = Parts(lines: seq<seq<Byte>>, rest: seq<Byte>)

  /** `split(b"\n")`: the complete lines, and the last fragment. */
  function Split(b: seq<Byte>): Parts {
    if b == [] then Parts([], [])
    else
      var (front, last) := (Split(b[..|b| - 1]), b[|b| - 1]);
      if last == NEWLINE then Parts(front.lines + [front.rest], []) else Parts(front.lines, front.rest + [last])
  }

  /** The lines with their line feeds, and the fragment after the last of them. */
  function Glued(parts: Parts): seq<Byte>
    decreases |parts.lines|
  {
    if parts.lines == [] then parts.rest
    else parts.lines[0] + [NEWLINE] + Glued(Parts(parts.lines[1..], parts.rest))
  }

  lemma {:induction false} GluedAppend(lines: seq<seq<Byte>>, line: seq<Byte>, rest: seq<Byte>)
    ensures Glued(Parts(lines + [line], rest)) == Glued(Parts(lines, line + [NEWLINE] + rest))
  {
    if lines == [] {
      assert [line][1..] == [] && lines + [line] == [line];
    } else {
      assert (lines + [line])[1..] == lines[1..] + [line];
      GluedAppend(lines[1..], line, rest);
    }
  }

  lemma {:induction false} GluedByte(lines: seq<seq<Byte>>, rest: seq<Byte>, b: Byte)
    ensures Glued(Parts(lines, rest + [b])) == Glued(Parts(lines, rest)) + [b]
  {
    if lines != [] {
      GluedByte(lines[1..], rest, b);
    }
  }

  /** No piece holds a line feed. */
  predicate Clean(parts: Parts) {
    NEWLINE !in parts.rest && forall k :: 0 <= k < |parts.lines| ==> NEWLINE !in parts.lines[k]
  }

  /** One more byte, as `Split` takes it. */
  lemma ByteGlues(front: Parts, last: Byte)
    requires Clean(front)
    ensures var more := if last == NEWLINE then Parts(front.lines + [front.rest], [])
                        else Parts(front.lines, front.rest + [last]);
            Clean(more) && Glued(more) == Glued(front) + [last]
  {
    hide Glued;
    GluedByte(front.lines, front.rest, last);
    if last == NEWLINE {
      GluedAppend(front.lines, front.rest, []);
      assert front.rest + [NEWLINE] + [] == front.rest + [NEWLINE];
    }
  }

  /** Splitting loses nothing and leaves no line feed inside a line, nor in the fragment. */
  lemma {:induction false} SplitGluesBack(b: seq<Byte>)
    ensures Glued(Split(b)) == b && Clean(Split(b))
  {
    if b != [] {
      hide Glued, Clean;
      SplitGluesBack(b[..|b| - 1]);
      ByteGlues(Split(b[..|b| - 1]), b[|b| - 1]);
      assert b == b[..|b| - 1] + [b[|b| - 1]];
    }
  }

  /** And it is the only way to do so: the pieces of any such division are the split's pieces. */
  lemma {:induction false} SplitIsUnique(parts: Parts)
    requires Clean(parts)
    ensures Split(Glued(parts)) == parts
    decreases |parts.lines|, |parts.rest|
  {
    var (lines, rest) := (parts.lines, parts.rest);
    if rest != [] {
      var (r, b) := (rest[..|rest| - 1], rest[|rest| - 1]);
      SplitIsUnique(Parts(lines, r));
      assert rest == r + [b];
      GluedByte(lines, r, b);
      var g := Glued(Parts(lines, r));
      assert (g + [b])[..|g|] == g;
    } else if lines != [] {
      var (front, line) := (lines[..|lines| - 1], lines[|lines| - 1]);
      SplitIsUnique(Parts(front, line));
      assert lines == front + [line];
      GluedAppend(front, line, []);
      assert line + [NEWLINE] + [] == line + [NEWLINE];
      GluedByte(front, line, NEWLINE);
      var g := Glued(Parts(front, line));
      assert (g + [NEWLINE])[..|g|] == g;
    }
  }

  /** Splitting what is left over together with what comes next gives the lines of the whole. */
  lemma {:induction false} SplitResumes(x: seq<Byte>, y: seq<Byte>)
    ensures Split(x + y).lines == Split(x).lines + Split(Split(x).rest + y).lines
    ensures Split(x + y).rest == Split(Split(x).rest + y).rest
  {
    var r := Split(x).rest;
    if y == [] {
      assert x + y == x && r + y == r;
      RestHasNoLines(x);
    } else {
      var (front, last) := (y[..|y| - 1], y[|y| - 1]);
      SplitResumes(x, front);
      assert (x + y)[..|x + y| - 1] == x + front && (r + y)[..|r + y| - 1] == r + front;
    }
  }

  lemma {:induction false} RestHasNoLines(x: seq<Byte>)
    ensures Split(Split(x).rest) == Parts([], Split(x).rest)
  {
    if x != [] {
      RestHasNoLines(x[..|x| - 1]);
      var r := Split(x).rest;
      if r != [] {
        assert r[..|r| - 1] == Split(x[..|x| - 1]).rest;
      }
    }
  }

  // ---- the monitor ----

  /** What one poll sees: the size at `lstat`, then the content at `read`, which may be longer. */
  datatype FileView = FileView(regular: bool, identity: int, size: nat, content: seq<Byte>)

  datatype State = State(offset: nat, buffer: seq<Byte>, identity: Option<int>, outcome: Outcome)

  const FRESH := State(0, [], None, Outcome(START, 0, true))

  /** What one `read` from the offset returns: nothing past the end, and at most one byte past the limit. */
  function Chunk(offset: nat, content: seq<Byte>): seq<Byte> {
    if |content| <= offset || MAX_BYTES + 1 <= offset then []
    else content[offset..if |content| > MAX_BYTES + 1 then MAX_BYTES + 1 else |content|]
  }

  /** The part of a poll that reads the file, up to the first line that is refused. */
  function AfterRead(a: Agent, decode: Decoder, s: State, v: FileView): State {
    if !v.regular || (s.identity.Some? && s.identity.value != v.identity) || v.size < s.offset || v.size > MAX_BYTES
    then s.(outcome := s.outcome.(ok := false))
    else
      var chunk := Chunk(s.offset, v.content);
      var parts := Split(s.buffer + chunk);
      State(s.offset + |chunk|, parts.rest, Some(v.identity), ConsumeLines(a, decode, s.outcome, parts.lines))
  }

  /** The part of a final poll that follows: the last fragment, then what was required. */
  function AfterFinal(a: Agent, decode: Decoder, o: Outcome, rest: seq<Byte>): Outcome {
    var last := if rest == [] then o else ConsumeLine(a, decode, o, rest);
    if last.ok
        && ((a.checkinRequired && last.progress.checkinAt.None?) || (a.usageRequired && last.progress.usage.None?))
    then last.(ok := false) else last
  }

  function AfterPoll(a: Agent, decode: Decoder, s: State, v: Option<FileView>, final: bool): State {
    var read := if v.Some? then AfterRead(a, decode, s, v.value) else s;
    if !read.outcome.ok || !final then read
    else State(read.offset, [], read.identity, AfterFinal(a, decode, read.outcome, read.buffer))
  }

  class Monitor {
    const agent: Agent
    const decode: Decoder
    var offset: nat
    var buffer: seq<Byte>
    var identity: Option<int>
    var progress: Progress
    var accepted: nat
    var failed: bool

    ghost function Current(): State
      reads this
    {
      State(offset, buffer, identity, Outcome(progress, accepted, !failed))
    }

    constructor (agent: Agent, decode: Decoder)
      ensures this.agent == agent && this.decode == decode && Current() == FRESH
    {
      this.agent, this.decode := agent, decode;
      offset, buffer, identity, progress, accepted, failed := 0, [], None, START, 0, false;
    }

    method ConsumeRaw(line: seq<Byte>)
      requires !failed
      modifies this`progress, this`accepted, this`failed
      ensures Current().outcome == ConsumeLine(agent, decode, old(Current().outcome), line)
    {
      var e := Decoded(decode, line);
      if e.None? {
        failed := true;
        return;
      }
      var p := Consume(agent, progress, e.value);
      if p.None? {
        progress, failed := AfterRefusal(progress, e.value), true;
        return;
      }
      progress, accepted := p.value, accepted + 1;
    }

    /** The lines of one poll, up to the first that is refused. */
    method ConsumeAll(lines: seq<seq<Byte>>)
      requires !failed
      modifies this`progress, this`accepted, this`failed
      ensures Current().outcome == ConsumeLines(agent, decode, old(Current().outcome), lines)
    {
      var i := 0;
      while i < |lines| && !failed
        invariant 0 <= i <= |lines|
        invariant Current().outcome == ConsumeLines(agent, decode, old(Current().outcome), lines[..i])
      {
        assert lines[..i + 1][..i] == lines[..i];
        ConsumeRaw(lines[i]);
        i := i + 1;
      }
      FailureSticks(agent, decode, old(Current().outcome), lines, i);
      assert i == |lines| ==> lines[..i] == lines;
    }

    /** The read of one poll: the bytes from the offset on, and the lines that they complete. */
    method ReadMore(view: FileView)
      requires !failed
      modifies this
      ensures Current() == AfterRead(agent, decode, old(Current()), view)
    {
      hide Split, Consume, ConsumeLine, ConsumeLines;
      if !view.regular || (identity.Some? && identity.value != view.identity)
         || view.size < offset || view.size > MAX_BYTES {
        failed := true;
        return;
      }
      var chunk := Chunk(offset, view.content);
      identity, offset, buffer := Some(view.identity), offset + |chunk|, buffer + chunk;
      var parts := Split(buffer);
      buffer := parts.rest;
      ConsumeAll(parts.lines);
    }

    /** The end of the final poll: the last fragment, and what the agent had to report. */
    method Finish()
      requires !failed
      modifies this
      ensures Current()
          == State(old(offset), [], old(identity), AfterFinal(agent, decode, old(Current()).outcome, old(buffer)))
    {
      hide Split, Consume, ConsumeLine, ConsumeLines;
      if buffer != [] {
        var pending := buffer;
        buffer := [];
        ConsumeRaw(pending);
      }
      if !failed
          && ((agent.checkinRequired && progress.checkinAt.None?) || (agent.usageRequired && progress.usage.None?)) {
        failed := true;
      }
    }

    /** One poll; a monitor that has failed is not polled again. */
    method Poll(v: Option<FileView>, final: bool)
      requires !failed
      modifies this
      ensures Current() == AfterPoll(agent, decode, old(Current()), v, final)
    {
      hide AfterRead, AfterFinal;
      if v.Some? {
        ReadMore(v.value);
      }
      if final && !failed {
        Finish();
      }
    }
  }

  /** What a poll accepts of the file itself: a regular one, always the same, neither shrunk nor too large. */
  lemma ReadAcceptedExactly(a: Agent, decode: Decoder, s: State, v: FileView)
    requires s.outcome.ok
    ensures var next := AfterRead(a, decode, s, v);
            var fits := v.regular && (s.identity.None? || s.identity.value == v.identity)
                && s.offset <= v.size <= 65536;
            && (!fits ==> !next.outcome.ok && next == s.(outcome := s.outcome.(ok := false)))
            && (fits ==>
                  && next.identity == Some(v.identity) && s.offset <= next.offset
                  && (s.offset <= |v.content| <= 65537 ==> next.offset == |v.content|)
                  && (s.offset <= 65537 <= |v.content| ==> next.offset == 65537)
                  && (next.outcome.ok
                      <==> ConsumeLines(a, decode, s.outcome, Split(s.buffer + Chunk(s.offset, v.content)).lines).ok))
  {
    hide Split, ConsumeLines;
  }

  /**
   When a line is taken, and what remains of one that is not: its sequence number, if it was decoded
   and its number was the next one.
   */
  lemma LineExactly(a: Agent, decode: Decoder, o: Outcome, line: seq<Byte>)
    requires o.ok
    ensures var (next, e) := (ConsumeLine(a, decode, o, line), decode(line));
            var (bounded, p) := (0 < |line| <= 4096, o.progress);
            && (next.ok <==> bounded && e.Some? && Consume(a, p, e.value).Some?)
            && (next.ok ==> next.accepted == o.accepted + 1 && Some(next.progress) == Consume(a, p, e.value))
            && (!next.ok ==>
                  && next.accepted == o.accepted && next.progress == p.(sequence := next.progress.sequence)
                  && next.progress.sequence == p.sequence +
                     if bounded && e.Some? && e.value.sequence == Some(p.sequence + 1) then 1 else 0)
  {
    hide Consume;
  }

  /** Once a line is refused, the lines after it change nothing. */
  lemma {:induction false} FailureSticks(a: Agent, decode: Decoder, o: Outcome, lines: seq<seq<Byte>>, i: nat)
    requires i <= |lines|
    ensures !ConsumeLines(a, decode, o, lines[..i]).ok ==>
              ConsumeLines(a, decode, o, lines) == ConsumeLines(a, decode, o, lines[..i])
    decreases |lines|
  {
    if i == |lines| {
      assert lines[..i] == lines;
    } else {
      FailureSticks(a, decode, o, lines[..|lines| - 1], i);
      assert lines[..|lines| - 1][..i] == lines[..i];
    }
  }

  // ---- streaming equals batch ----

  /** The lines of a whole file, its last fragment included. */
  function WholeLines(file: seq<Byte>): seq<seq<Byte>> {
    var parts := Split(file);
    parts.lines + if parts.rest == [] then [] else [parts.rest]
  }

  /** The reference: split the finished file once, consume every line, then check what is required. */
  function Batch(a: Agent, decode: Decoder, file: seq<Byte>): Outcome {
    AfterFinal(a, decode, ConsumeLines(a, decode, FRESH.outcome, WholeLines(file)), [])
  }

  /** The polls of one run, from the first to the final one; polling ends at a failure. */
  function Stream(a: Agent, decode: Decoder, views: seq<Option<FileView>>, final: bool): State {
    if views == [] then FRESH
    else
      var s := Stream(a, decode, views[..|views| - 1], false);
      if !s.outcome.ok then s else AfterPoll(a, decode, s, views[|views| - 1], final)
  }

  /** How many bytes the views before `n` have shown. */
  function Shown(views: seq<Option<FileView>>, n: nat): nat
    requires n <= |views|
  {
    if n == 0 then 0 else if views[n - 1].Some? then |views[n - 1].value.content| else Shown(views, n - 1)
  }

  /**
   Some way in which `file` came into being while it was polled: first it does not exist, then
   every view shows one regular file that holds a longer prefix than the view before.
   */
  predicate Growing(views: seq<Option<FileView>>, file: seq<Byte>) {
    && |file| <= MAX_BYTES
    && (forall i :: 0 <= i < |views| && views[i].Some? ==>
          && views[i].value.regular
          && Shown(views, i) <= views[i].value.size <= |views[i].value.content|
          && views[i].value.content <= file)
    && (forall i, j :: 0 <= i < |views| && 0 <= j < |views| && views[i].Some? && views[j].Some? ==>
          views[i].value.identity == views[j].value.identity)
  }

  lemma {:induction false} ConsumeAppends(a: Agent, decode: Decoder, o: Outcome, x: seq<seq<Byte>>, y: seq<seq<Byte>>)
    ensures ConsumeLines(a, decode, o, x + y) == ConsumeLines(a, decode, ConsumeLines(a, decode, o, x), y)
  {
    if y == [] {
      assert x + y == x;
    } else {
      ConsumeAppends(a, decode, o, x, y[..|y| - 1]);
      assert (x + y)[..|x + y| - 1] == x + y[..|y| - 1];
    }
  }

  lemma {:induction false} ShownIsPrefix(views: seq<Option<FileView>>, file: seq<Byte>, n: nat)
    requires Growing(views, file) && n <= |views|
    ensures Shown(views, n) <= |file|
  {
    if n > 0 && views[n - 1].None? {
      ShownIsPrefix(views, file, n - 1);
    }
  }

  lemma {:induction false} ShownIgnoresLater(views: seq<Option<FileView>>, n: nat, m: nat)
    requires n <= m <= |views|
    ensures Shown(views[..m], n) == Shown(views, n)
  {
    if n > 0 {
      ShownIgnoresLater(views, n - 1, m);
    }
  }

  lemma GrowingPrefix(views: seq<Option<FileView>>, file: seq<Byte>, m: nat)
    requires Growing(views, file) && m <= |views|
    ensures Growing(views[..m], file)
  {
    forall i | 0 <= i < m
      ensures Shown(views[..m], i) == Shown(views, i)
    {
      ShownIgnoresLater(views, i, m);
    }
  }

  /** The polls so far consumed the complete lines of the first `n` bytes and kept the rest. */
  predicate Tracks(a: Agent, decode: Decoder, s: State, file: seq<Byte>, n: nat)
    requires n <= |file|
  {
    if s.outcome.ok then
      s.offset == n && s.buffer == Split(file[..n]).rest
      && s.outcome == ConsumeLines(a, decode, FRESH.outcome, Split(file[..n]).lines)
    else s.outcome == ConsumeLines(a, decode, FRESH.outcome, Split(file).lines)
  }

  predicate KnowsIdentity(s: State, views: seq<Option<FileView>>) {
    s.identity.Some? ==> exists i :: 0 <= i < |views| && views[i].Some? && views[i].value.identity == s.identity.value
  }

  lemma {:induction false} StreamTracks(a: Agent, decode: Decoder, views: seq<Option<FileView>>, file: seq<Byte>)
    requires Growing(views, file)
    ensures Shown(views, |views|) <= |file|
    ensures Tracks(a, decode, Stream(a, decode, views, false), file, Shown(views, |views|))
    ensures Stream(a, decode, views, false).outcome.ok ==> KnowsIdentity(Stream(a, decode, views, false), views)
  {
    ShownIsPrefix(views, file, |views|);
    if views != [] {
      var m := |views| - 1;
      var (front, last) := (views[..m], views[m]);
      GrowingPrefix(views, file, m);
      StreamTracks(a, decode, front, file);
      ShownIgnoresLater(views, m, m);
      var s := Stream(a, decode, front, false);
      hide AfterRead, Split, ConsumeLines, Growing;
      if s.outcome.ok {
        IdentityStays(views, file, s, m);
        if last.Some? {
          ViewIsPrefix(views, file, m);
          PollConsumesLines(a, decode, s, last.value, file);
          var t := AfterPoll(a, decode, s, last, false);
          assert t == AfterRead(a, decode, s, last.value) && t.identity == Some(views[m].value.identity);
        }
      }
    }
  }

  /** A view that is known by its file is known as the file of every later view. */
  lemma IdentityStays(views: seq<Option<FileView>>, file: seq<Byte>, s: State, m: nat)
    requires Growing(views, file) && m < |views| && KnowsIdentity(s, views[..m])
    ensures KnowsIdentity(s, views)
    ensures s.identity.Some? && views[m].Some? ==> s.identity.value == views[m].value.identity
  {
    if s.identity.Some? {
      var i :| 0 <= i < m && views[..m][i].Some? && views[..m][i].value.identity == s.identity.value;
      assert views[i] == views[..m][i];
    }
  }

  lemma ViewIsPrefix(views: seq<Option<FileView>>, file: seq<Byte>, m: nat)
    requires Growing(views, file) && m < |views| && views[m].Some?
    ensures var v := views[m].value;
            && v.regular && Shown(views, m) <= v.size <= |v.content| <= |file| <= MAX_BYTES && v.content <= file
            && v.content == file[..|v.content|]
  {
  }

  /** The lines of a prefix of the file come first among the lines of the file. */
  lemma PrefixLines(a: Agent, decode: Decoder, file: seq<Byte>, n: nat)
    requires n <= |file|
    ensures Split(file[..n]).lines <= Split(file).lines
    ensures !ConsumeLines(a, decode, FRESH.outcome, Split(file[..n]).lines).ok ==>
              ConsumeLines(a, decode, FRESH.outcome, Split(file).lines)
              == ConsumeLines(a, decode, FRESH.outcome, Split(file[..n]).lines)
  {
    SplitResumes(file[..n], file[n..]);
    assert file == file[..n] + file[n..];
    FailureSticks(a, decode, FRESH.outcome, Split(file).lines, |Split(file[..n]).lines|);
  }

  lemma PollConsumesLines(a: Agent, decode: Decoder, s: State, v: FileView, file: seq<Byte>)
    requires s.outcome.ok && v.regular && (s.identity.Some? ==> s.identity.value == v.identity)
    requires s.offset <= v.size <= |v.content| <= |file| <= MAX_BYTES && v.content <= file
    requires s.buffer == Split(file[..s.offset]).rest
    requires s.outcome == ConsumeLines(a, decode, FRESH.outcome, Split(file[..s.offset]).lines)
    ensures var t := AfterRead(a, decode, s, v);
            && t.offset == |v.content| && t.buffer == Split(v.content).rest && t.identity == Some(v.identity)
            && t.outcome == ConsumeLines(a, decode, FRESH.outcome, Split(v.content).lines)
            && (!t.outcome.ok ==> t.outcome == ConsumeLines(a, decode, FRESH.outcome, Split(file).lines))
  {
    hide Split, ConsumeLines;
    var (x, y) := (v.content[..s.offset], v.content[s.offset..]);
    assert x == file[..s.offset] && x + y == v.content;
    assert Chunk(s.offset, v.content) == y;
    SplitResumes(x, y);
    ConsumeAppends(a, decode, FRESH.outcome, Split(x).lines, Split(s.buffer + y).lines);
    assert v.content == file[..|v.content|];
    PrefixLines(a, decode, file, |v.content|);
  }

  /**
   Streaming equals batch: however the file grew between polls, the monitor ends with the same
   verdict, after the same number of lines and with the same events, as one pass over the file.
   */
  lemma StreamingEqualsBatch(a: Agent, decode: Decoder, views: seq<Option<FileView>>, file: seq<Byte>)
    requires Growing(views, file) && views != []
    requires Shown(views, |views|) == |file|
    ensures Stream(a, decode, views, true).outcome == Batch(a, decode, file)
  {
    var m := |views| - 1;
    var (front, last) := (views[..m], views[m]);
    var s := Stream(a, decode, front, false);
    GrowingPrefix(views, file, m);
    StreamTracks(a, decode, front, file);
    ShownIgnoresLater(views, m, m);
    var parts := Split(file);
    if parts.rest != [] {
      ConsumeAppends(a, decode, FRESH.outcome, parts.lines, [parts.rest]);
      assert [parts.rest][..0] == [];
    } else {
      assert WholeLines(file) == parts.lines;
    }
    if s.outcome.ok {
      if last.Some? {
        PollConsumesLines(a, decode, s, last.value, file);
        assert last.value.content == file;
      } else {
        assert file[..|file|] == file;
      }
    }
  }

  // ---- which streams are accepted ----

  function BeatTime(e: Event): Option<int> {
    match e.body
    case Checkin(_, _, _, at) => at
    case Heartbeat(_, at) => at
    case Usage(_, _, _, _, _, _, _, _, _, _) => None
    case Unsupported => None
  }

  predicate SoundEvent(a: Agent, e: Event, i: nat) {
    && e.sequence == Some(i + 1) && e.versionValid
    && match e.body
       case Checkin(valid, provider, model, at) =>
         i == 0 && valid && provider == a.provider && model == a.model && at.Some?
       case Heartbeat(valid, at) => i > 0 && valid && at.Some?
       case Usage(valid, input, output, cached, reasoning, total, source, exact, final, at) =>
         && i > 0 && valid && final && at.Some? && exact.Some?
         && input.Some? && output.Some? && cached.Some? && reasoning.Some? && total.Some?
         && 0 <= cached.value <= input.value <= 1_000_000_000 && 0 <= reasoning.value <= output.value <= 1_000_000_000
         && total.value == input.value + output.value <= 1_000_000_000
         && (source == "adapter_reported" || (source == "synthetic" && a.allowSynthetic)
             || (source == "estimated" && !exact.value)
             || (source in {"provider_response", "broker_attested"} && exact.value))
       case Unsupported => false
  }

  /**
   The protocol: numbered from 1, a matching check-in first and only there, at most one consistent
   usage receipt, every other event a heartbeat, and beat times that never go back.
   */
  predicate ProtocolStream(a: Agent, es: seq<Event>) {
    && |es| <= 1024
    && (forall i :: 0 <= i < |es| ==> SoundEvent(a, es[i], i))
    && (forall i, j :: 0 <= i < j < |es| ==> !(es[i].body.Usage? && es[j].body.Usage?))
    && (forall i, j :: 0 <= i < j < |es| && BeatTime(es[i]).Some? && BeatTime(es[j]).Some? ==>
          BeatTime(es[i]).value <= BeatTime(es[j]).value)
  }

  /** The progress that a protocol stream must leave. */
  predicate Reflects(p: Progress, es: seq<Event>) {
    && p.sequence == |es| && p.emitted == es
    && p.checkinAt == (if es == [] then None else BeatTime(es[0]))
    && (p.usage.Some? <==> exists i :: 0 <= i < |es| && es[i].body.Usage?)
    && (p.lastBeat.Some? <==> es != [])
    && (p.lastBeat.Some? ==> exists i :: 0 <= i < |es| && BeatTime(es[i]) == p.lastBeat)
    && (p.lastBeat.Some? ==> forall i :: 0 <= i < |es| && BeatTime(es[i]).Some? ==>
        BeatTime(es[i]).value <= p.lastBeat.value)
  }

  /** An event that is taken extends the protocol. */
  lemma ConsumeExtends(a: Agent, p: Progress, es: seq<Event>, e: Event)
    requires ProtocolStream(a, es) && Reflects(p, es) && Consume(a, p, e).Some?
    ensures ProtocolStream(a, es + [e])
  {
    var fs := es + [e];
    var n := |es|;
    assert forall i :: 0 <= i < n ==> fs[i] == es[i];
    assert fs[n] == e;
  }

  /** And the progress keeps describing what was taken. */
  lemma ConsumeReflects(a: Agent, p: Progress, es: seq<Event>, e: Event)
    requires ProtocolStream(a, es) && Reflects(p, es) && Consume(a, p, e).Some?
    ensures Reflects(Consume(a, p, e).value, es + [e])
  {
    var fs := es + [e];
    var n := |es|;
    assert forall i :: 0 <= i < n ==> fs[i] == es[i];
    assert fs[n] == e;
    var q := Consume(a, p, e).value;
    if BeatTime(e).Some? {
      assert BeatTime(fs[n]) == q.lastBeat;
    } else {
      var i :| 0 <= i < n && BeatTime(es[i]) == p.lastBeat;
      assert BeatTime(fs[i]) == q.lastBeat;
    }
  }

  /** An event that extends the protocol is taken. */
  lemma ExtensionIsTaken(a: Agent, p: Progress, es: seq<Event>, e: Event)
    requires Reflects(p, es) && ProtocolStream(a, es + [e])
    ensures Consume(a, p, e).Some?
  {
    var fs := es + [e];
    var n := |es|;
    assert forall i :: 0 <= i < n ==> fs[i] == es[i];
    assert fs[n] == e && SoundEvent(a, fs[n], n);
    if n > 0 {
      assert SoundEvent(a, fs[0], 0);
      assert BeatTime(fs[0]).Some?;
      var i :| 0 <= i < n && BeatTime(es[i]) == p.lastBeat;
      assert BeatTime(fs[i]) == p.lastBeat;
    }
  }

  /** Exactly the events that extend the protocol are taken. */
  lemma ConsumeKeepsProtocol(a: Agent, p: Progress, es: seq<Event>, e: Event)
    requires ProtocolStream(a, es) && Reflects(p, es)
    ensures Consume(a, p, e).Some? <==> ProtocolStream(a, es + [e])
    ensures Consume(a, p, e).Some? ==> Reflects(Consume(a, p, e).value, es + [e])
  {
    if Consume(a, p, e).Some? {
      ConsumeExtends(a, p, es, e);
      ConsumeReflects(a, p, es, e);
    }
    if ProtocolStream(a, es + [e]) {
      ExtensionIsTaken(a, p, es, e);
    }
  }

  function Events(decode: Decoder, lines: seq<seq<Byte>>): Option<seq<Event>> {
    if lines == [] then Some([])
    else
      var front := Events(decode, lines[..|lines| - 1]);
      var e := Decoded(decode, lines[|lines| - 1]);
      if front.Some? && e.Some? then Some(front.value + [e.value]) else None
  }

  lemma {:induction false} ProtocolPrefix(a: Agent, es: seq<Event>, e: Event)
    requires ProtocolStream(a, es + [e])
    ensures ProtocolStream(a, es)
  {
    forall i | 0 <= i < |es|
      ensures SoundEvent(a, es[i], i)
    {
      assert es[i] == (es + [e])[i];
    }
    forall i, j | 0 <= i < j < |es|
      ensures !(es[i].body.Usage? && es[j].body.Usage?)
      ensures BeatTime(es[i]).Some? && BeatTime(es[j]).Some? ==> BeatTime(es[i]).value <= BeatTime(es[j]).value
    {
      assert es[i] == (es + [e])[i] && es[j] == (es + [e])[j];
    }
  }

  /** The monitor accepts exactly the lines that decode to a protocol stream, and emits its events. */
  lemma {:induction false} AcceptedExactlyProtocol(a: Agent, decode: Decoder, lines: seq<seq<Byte>>)
    ensures var o := ConsumeLines(a, decode, FRESH.outcome, lines);
            && (o.ok <==> Events(decode, lines).Some? && ProtocolStream(a, Events(decode, lines).value))
            && (o.ok ==> Reflects(o.progress, Events(decode, lines).value))
  {
    if lines != [] {
      var (front, last) := (lines[..|lines| - 1], lines[|lines| - 1]);
      AcceptedExactlyProtocol(a, decode, front);
      var o := ConsumeLines(a, decode, FRESH.outcome, front);
      var e := Decoded(decode, last);
      if Events(decode, front).Some? && e.Some? {
        var es := Events(decode, front).value;
        if o.ok {
          ConsumeKeepsProtocol(a, o.progress, es, e.value);
        } else if ProtocolStream(a, es + [e.value]) {
          ProtocolPrefix(a, es, e.value);
        }
      }
    }
  }

  /** The verdict on a whole file, in terms of its events alone. */
  lemma FileAcceptedExactly(a: Agent, decode: Decoder, file: seq<Byte>)
    ensures Batch(a, decode, file).ok <==>
            var es := Events(decode, WholeLines(file));
            && es.Some? && ProtocolStream(a, es.value)
            && (a.checkinRequired ==> es.value != [])
            && (a.usageRequired ==> exists i :: 0 <= i < |es.value| && es.value[i].body.Usage?)
  {
    AcceptedExactlyProtocol(a, decode, WholeLines(file));
    var o := ConsumeLines(a, decode, FRESH.outcome, WholeLines(file));
    if o.ok {
      var es := Events(decode, WholeLines(file)).value;
      if es != [] {
        assert SoundEvent(a, es[0], 0);
      }
    }
  }
}
