/** The line framers that turn a chunked reply stream into events. */
module Framing {
  import opened Grouping
  import opened Options
  import opened Text

  /** The trimmed lines, without the blank ones. */
  function Kept(lines: seq<string>): seq<string> {
    if lines == [] then []
    else
      var last := Trim(lines[|lines| - 1]);
      Kept(lines[..|lines| - 1]) + if last == "" then [] else [last]
  }

  /** The events of the lines that parse; the others are dropped. */
  function Parsed<E>(parse: string -> Option<E>, lines: seq<string>): seq<E> {
    if lines == [] then []
    else
      var last := parse(lines[|lines| - 1]);
      Parsed(parse, lines[..|lines| - 1]) + if last.None? then [] else [last.value]
  }

  /** What the secretary and data hub framers deliver of a whole text: the events of its terminated non-blank lines. */
  function Framed<E>(parse: string -> Option<E>, text: string): seq<E> {
    Parsed(parse, Kept(Terminated(text)))
  }

  lemma {:induction false} KeptAppends(a: seq<string>, b: seq<string>)
    ensures Kept(a + b) == Kept(a) + Kept(b)
  {
    hide Trim;
    if b == [] {
      assert a + b == a;
    } else {
      assert (a + b)[..|a + b| - 1] == a + b[..|b| - 1];
      KeptAppends(a, b[..|b| - 1]);
    }
  }

  lemma {:induction false} ParsedAppends<E>(parse: string -> Option<E>, a: seq<string>, b: seq<string>)
    ensures Parsed(parse, a + b) == Parsed(parse, a) + Parsed(parse, b)
  {
    if b == [] {
      assert a + b == a;
    } else {
      assert (a + b)[..|a + b| - 1] == a + b[..|b| - 1];
      ParsedAppends(parse, a, b[..|b| - 1]);
    }
  }

  lemma EventsAppend<E>(parse: string -> Option<E>, a: seq<string>, b: seq<string>)
    ensures Parsed(parse, Kept(a + b)) == Parsed(parse, Kept(a)) + Parsed(parse, Kept(b))
  {
    KeptAppends(a, b);
    ParsedAppends(parse, Kept(a), Kept(b));
  }

  function IndexOfFeed(s: string): (i: int)
    ensures -1 <= i < |s|
    ensures i >= 0 ==> s[i] == '\n' && '\n' !in s[..i]
    ensures i < 0 ==> '\n' !in s
  {
    if s == "" then -1
    else if s[0] == '\n' then 0
    else
      var i := IndexOfFeed(s[1..]);
      if i < 0 then -1 else
        assert s[..i + 1] == [s[0]] + s[1..][..i];
        i + 1
  }

  /** Continuing with a chunk: the buffered rest and the chunk hold exactly the lines that the chunk completes. */
  lemma Buffered(before: string, chunk: string)
    ensures Terminated(before + chunk) == Terminated(before) + Terminated(Rest(before) + chunk)
    ensures Rest(before + chunk) == Rest(Rest(before) + chunk)
  {
    hide Split;
    SplitOfConcat('\n', before, chunk);
    SplitOfConcat('\n', Rest(before), chunk);
    PiecesHoldNoSeparator('\n', before);
    UnseparatedIsOnePiece('\n', Rest(before));
    var p, q := Split('\n', before), Split('\n', chunk);
    var n := |p| - 1;
    assert [p[n]][..0] == [] && Glue([p[n]], q) == [p[n] + q[0]] + q[1..];
    assert Glue(p, q) == p[..n] + Glue([p[n]], q);
  }

  lemma CutFirst(buf: string, i: nat)
    requires i < |buf| && buf[i] == '\n' && '\n' !in buf[..i]
    ensures Terminated(buf) == [buf[..i]] + Terminated(buf[i + 1..])
    ensures Rest(buf) == Rest(buf[i + 1..])
  {
    assert buf == buf[..i] + "\n" + buf[i + 1..];
    FirstPiece('\n', buf[..i], buf[i + 1..]);
  }

  lemma CutNone(buf: string)
    requires '\n' !in buf
    ensures Terminated(buf) == [] && Rest(buf) == buf
  {
    UnseparatedIsOnePiece('\n', buf);
  }

  /** The events of one line: none if it is blank or does not parse. */
  function EventsOf<E>(parse: string -> Option<E>, line: string): seq<E> {
    Parsed(parse, Kept([line]))
  }

  lemma OneLine<E>(parse: string -> Option<E>, line: string)
    ensures EventsOf(parse, line)
            == if Trim(line) != "" && parse(Trim(line)).Some? then [parse(Trim(line)).value] else []
  {
    hide Trim;
    var t := Trim(line);
    assert [line][..0] == [] && [t][..0] == [];
    assert Kept([line]) == Kept([]) + if t == "" then [] else [t];
    assert Parsed(parse, [t]) == Parsed(parse, []) + if parse(t).None? then [] else [parse(t).value];
  }

  /** One line of the buffer, delivered if it is not blank and parses. */
  lemma DeliverOne<E>(parse: string -> Option<E>, buf: string, i: nat)
    requires i < |buf| && buf[i] == '\n' && '\n' !in buf[..i]
    ensures Framed(parse, buf) == EventsOf(parse, buf[..i]) + Framed(parse, buf[i + 1..])
  {
    CutFirst(buf, i);
    hide Trim;
    EventsAppend(parse, [buf[..i]], Terminated(buf[i + 1..]));
  }

  /** Delivers the complete lines of a buffer and returns what is left of it. */
  method DeliverLines<E>(buffer: string, parse: string -> Option<E>) returns (events: seq<E>, buf: string)
    ensures events == Framed(parse, buffer)
    ensures buf == Rest(buffer)
  {
    hide Trim, Framed, EventsOf;
    events, buf := [], buffer;
    var idx := IndexOfFeed(buf);
    while idx >= 0
      invariant idx == IndexOfFeed(buf)
      invariant events + Framed(parse, buf) == Framed(parse, buffer)
      invariant Rest(buf) == Rest(buffer)
      decreases |buf|
    {
      DeliverOne(parse, buf, idx);
      OneLine(parse, buf[..idx]);
      CutFirst(buf, idx);
      var line := Trim(buf[..idx]);
      buf := buf[idx + 1..];
      if line != "" {
        var event := parse(line);
        if event.Some? { events := events + [event.value]; }
      }
      idx := IndexOfFeed(buf);
    }
    NoLines(parse, buf);
  }

  lemma NoLines<E>(parse: string -> Option<E>, buf: string)
    requires '\n' !in buf
    ensures Framed(parse, buf) == [] && Rest(buf) == buf
  {
    CutNone(buf);
  }

  lemma FramedGrows<E>(parse: string -> Option<E>, before: string, chunk: string)
    ensures Framed(parse, before + chunk) == Framed(parse, before) + Framed(parse, Rest(before) + chunk)
    ensures Rest(before + chunk) == Rest(Rest(before) + chunk)
  {
    Buffered(before, chunk);
    EventsAppend(parse, Terminated(before), Terminated(Rest(before) + chunk));
  }

  /** The secretary's and the data hub's stream reader: it cuts a buffer in place as chunks arrive. */
  method AgentRunStream<E>(chunks: seq<string>, parse: string -> Option<E>) returns (events: seq<E>)
    ensures events == Framed(parse, Concat(chunks))
  {
    NoLines(parse, "");
    hide Framed, Rest;
    events := [];
    var buf := "";
    for k := 0 to |chunks|
      invariant events == Framed(parse, Concat(chunks[..k]))
      invariant buf == Rest(Concat(chunks[..k]))
    {
      FramedGrows(parse, Concat(chunks[..k]), chunks[k]);
      assert chunks[..k + 1][..k] == chunks[..k];
      var delivered;
      delivered, buf := DeliverLines(buf + chunks[k], parse);
      events := events + delivered;
    }
    assert chunks[..|chunks|] == chunks;
  }

  // ---------------------------------------------------------------------------------------
  // The JSON stream reader, which also accepts CR LF and delivers the tail
  // ---------------------------------------------------------------------------------------

  function ChopReturn(line: string): string {
    if line != "" && line[|line| - 1] == '\r' then line[..|line| - 1] else line
  }

  function Chopped(lines: seq<string>): (r: seq<string>)
    ensures |r| == |lines| && forall k :: 0 <= k < |r| ==> r[k] == ChopReturn(lines[k])
  {
    seq(|lines|, k requires 0 <= k < |lines| => ChopReturn(lines[k]))
  }

  /** What handling lines in order does: deliver the non-blank ones until one does not parse. */
  datatype Handled<E> = Handled(events: seq<E>, failed: bool)

  function Handle<E>(parse: string -> Option<E>, h: Handled<E>, line: string): Handled<E> {
    if h.failed || Blank(line) then h
    else if parse(line).None? then Handled(h.events, true)
    else Handled(h.events + [parse(line).value], false)
  }

  function HandleAll<E>(parse: string -> Option<E>, lines: seq<string>): Handled<E> {
    if lines == [] then Handled([], false)
    else Handle(parse, HandleAll(parse, lines[..|lines| - 1]), lines[|lines| - 1])
  }

  /** What the JSON reader delivers of a whole text: every terminated line, with one carriage return taken off, and the
      tail. */
  function Streamed<E>(parse: string -> Option<E>, text: string): Handled<E> {
    HandleAll(parse, Chopped(Terminated(text)) + [Rest(text)])
  }

  lemma HandleSnoc<E>(parse: string -> Option<E>, lines: seq<string>, line: string)
    ensures HandleAll(parse, lines + [line]) == Handle(parse, HandleAll(parse, lines), line)
  {
  }

  lemma {:induction false} FailedStays<E>(parse: string -> Option<E>, a: seq<string>, b: seq<string>)
    requires HandleAll(parse, a).failed
    ensures HandleAll(parse, a + b) == HandleAll(parse, a)
  {
    if b == [] {
      assert a + b == a;
    } else {
      FailedStays(parse, a, b[..|b| - 1]);
      assert (a + b)[..|a + b| - 1] == a + b[..|b| - 1];
    }
  }

  /** Handles lines in order until one does not parse. */
  method HandleLines<E>(ghost before: seq<string>, lines: seq<string>, parse: string -> Option<E>)
      returns (events: seq<E>, failed: bool)
    requires !HandleAll(parse, before).failed
    ensures Handled(HandleAll(parse, before).events + events, failed) == HandleAll(parse, before + lines)
  {
    hide HandleAll, Blank;
    events, failed := [], false;
    assert before + lines[..0] == before;
    for j := 0 to |lines|
      invariant !failed
      invariant Handled(HandleAll(parse, before).events + events, failed) == HandleAll(parse, before + lines[..j])
    {
      assert before + lines[..j + 1] == before + lines[..j] + [lines[j]];
      HandleSnoc(parse, before + lines[..j], lines[j]);
      if !Blank(lines[j]) {
        var event := parse(lines[j]);
        if event.None? {
          assert before + lines[..j + 1] <= before + lines;
          FailedPrefix(parse, before + lines[..j + 1], before + lines);
          return events, true;
        }
        events := events + [event.value];
      }
    }
    assert lines[..|lines|] == lines;
  }

  lemma ChoppedGrows(before: string, chunk: string)
    ensures Chopped(Terminated(before + chunk))
            == Chopped(Terminated(before)) + Chopped(Terminated(Rest(before) + chunk))
    ensures Rest(before + chunk) == Rest(Rest(before) + chunk)
  {
    Buffered(before, chunk);
  }

  /** Once a prefix of the lines has failed, the rest is not looked at. */
  lemma FailedPrefix<E>(parse: string -> Option<E>, lines: seq<string>, all: seq<string>)
    requires lines <= all && HandleAll(parse, lines).failed
    ensures HandleAll(parse, all) == HandleAll(parse, lines)
  {
    hide HandleAll;
    assert lines + all[|lines|..] == all;
    FailedStays(parse, lines, all[|lines|..]);
  }

  lemma FailedEarly<E>(parse: string -> Option<E>, chunks: seq<string>, k: nat)
    requires k <= |chunks| && HandleAll(parse, Chopped(Terminated(Concat(chunks[..k])))).failed
    ensures Streamed(parse, Concat(chunks)) == HandleAll(parse, Chopped(Terminated(Concat(chunks[..k]))))
  {
    WithTail(parse, Concat(chunks));
    hide *;
    var lines := Chopped(Terminated(Concat(chunks[..k])));
    ChoppedPrefix(chunks, k, lines);
    FailedPrefix(parse, lines, Chopped(Terminated(Concat(chunks))) + [Rest(Concat(chunks))]);
  }

  lemma NothingHandled<E>(parse: string -> Option<E>)
    ensures HandleAll(parse, Chopped(Terminated(""))) == Handled([], false) && Rest("") == ""
  {
  }

  lemma WithTail<E>(parse: string -> Option<E>, text: string)
    ensures Streamed(parse, text) == HandleAll(parse, Chopped(Terminated(text)) + [Rest(text)])
  {
  }

  /** The JSON reader: each chunk is split as a whole and its last piece is kept for the next one. */
  method AiStreamJson<E>(chunks: seq<string>, parse: string -> Option<E>) returns (events: seq<E>, failed: bool)
    ensures Handled(events, failed) == Streamed(parse, Concat(chunks))
  {
    hide ChopReturn, Blank, HandleAll, Handle, Streamed;
    NothingHandled(parse);
    events, failed := [], false;
    var buffer := "";
    for k := 0 to |chunks|
      invariant !failed
      invariant Handled(events, failed) == HandleAll(parse, Chopped(Terminated(Concat(chunks[..k]))))
      invariant buffer == Rest(Concat(chunks[..k]))
    {
      ChoppedGrows(Concat(chunks[..k]), chunks[k]);
      assert chunks[..k + 1][..k] == chunks[..k];
      var pieces := Split('\n', buffer + chunks[k]);
      var lines := Chopped(pieces[..|pieces| - 1]);
      buffer := pieces[|pieces| - 1];
      var delivered;
      delivered, failed := HandleLines(Chopped(Terminated(Concat(chunks[..k]))), lines, parse);
      events := events + delivered;
      if failed {
        FailedEarly(parse, chunks, k + 1);
        return;
      }
    }
    assert chunks[..|chunks|] == chunks;
    var delivered;
    delivered, failed := HandleLines(Chopped(Terminated(Concat(chunks))), [buffer], parse);
    events := events + delivered;
    WithTail(parse, Concat(chunks));
  }

  /** The lines completed so far are a prefix of all lines. */
  lemma {:induction false} TerminatedGrows(chunks: seq<string>, k: nat)
    requires k <= |chunks|
    ensures Terminated(Concat(chunks[..k])) <= Terminated(Concat(chunks))
    decreases |chunks| - k
  {
    if k == |chunks| {
      assert chunks[..k] == chunks;
    } else {
      TerminatedGrows(chunks, k + 1);
      assert chunks[..k + 1][..k] == chunks[..k];
      Buffered(Concat(chunks[..k]), chunks[k]);
    }
  }

  lemma ChoppedPrefix(chunks: seq<string>, k: nat, lines: seq<string>)
    requires k <= |chunks| && lines == Chopped(Terminated(Concat(chunks[..k])))
    ensures lines <= Chopped(Terminated(Concat(chunks))) + [Rest(Concat(chunks))]
  {
    TerminatedGrows(chunks, k);
  }

  // ---------------------------------------------------------------------------------------
  // What is delivered, line by line
  // ---------------------------------------------------------------------------------------

  /** The line, without the space around it, is an event. */
  predicate SaysEvent<E>(parse: string -> Option<E>, line: string) {
    !Blank(line) && parse(Trim(line)).Some?
  }

  /** The events are those of the lines at these places: all the lines that say one, in order. */
  predicate Delivers<E(==)>(parse: string -> Option<E>, lines: seq<string>, places: seq<int>, events: seq<E>) {
    && Increasing(places) && (forall k :: k in places ==> 0 <= k < |lines|)
    && (forall k :: 0 <= k < |lines| ==> (k in places <==> SaysEvent(parse, lines[k])))
    && |events| == |places|
    && forall i :: 0 <= i < |places| ==> 0 <= places[i] < |lines| && parse(Trim(lines[places[i]])) == Some(events[i])
  }

  lemma DeliversNext<E>(parse: string -> Option<E>, lines: seq<string>, places: seq<int>, events: seq<E>, line: string,
      event: E)
    requires Delivers(parse, lines, places, events) && SaysEvent(parse, line) && parse(Trim(line)) == Some(event)
    ensures Delivers(parse, lines + [line], places + [|lines|], events + [event])
  {
    hide SaysEvent, Trim, Increasing;
    OneMorePlace(places, |lines|);
    assert forall i :: 0 <= i < |places| ==> places[i] in places;
  }

  lemma DeliversNothing<E>(parse: string -> Option<E>, lines: seq<string>, places: seq<int>, events: seq<E>,
      line: string)
    requires Delivers(parse, lines, places, events) && !SaysEvent(parse, line)
    ensures Delivers(parse, lines + [line], places, events)
  {
    hide SaysEvent, Trim, Increasing;
  }

  lemma {:induction false} KeptDelivers<E>(parse: string -> Option<E>, lines: seq<string>) returns (places: seq<int>)
    ensures Delivers(parse, lines, places, Parsed(parse, Kept(lines)))
  {
    hide Delivers, Trim, Blank, Kept, Parsed, EventsOf;
    places := [];
    if lines == [] {
      NothingKept(parse);
    } else {
      var n := |lines| - 1;
      var before, line := lines[..n], lines[n];
      places := KeptDelivers(parse, before);
      assert lines == before + [line];
      OneMoreLine(parse, before, line);
      OneLine(parse, line);
      BlankIffTrimmedAway(line);
      var events := Parsed(parse, Kept(before));
      if SaysEvent(parse, line) {
        DeliversNext(parse, before, places, events, line, parse(Trim(line)).value);
        places := places + [n];
      } else {
        DeliversNothing(parse, before, places, events, line);
        assert events + [] == events;
      }
    }
  }

  lemma NothingKept<E>(parse: string -> Option<E>)
    ensures Delivers(parse, [], [], Parsed(parse, Kept([])))
  {
  }

  /** The first readers deliver exactly the terminated lines that say an event, each once and in order. */
  lemma FramedDelivers<E>(parse: string -> Option<E>, text: string) returns (places: seq<int>)
    ensures Delivers(parse, Terminated(text), places, Framed(parse, text))
  {
    hide Terminated, Delivers;
    places := KeptDelivers(parse, Terminated(text));
  }

  /** A line that is handled: one carriage return at its end is taken off. */
  predicate Handles(line: string, raw: string) {
    if line != "" && line[|line| - 1] == '\r' then line == raw + "\r" else raw == line
  }

  lemma ChopsReturn(line: string)
    ensures Handles(line, ChopReturn(line))
  {
  }

  /** The first place of a bad line: one that is not blank and does not parse. */
  predicate IsFirstBad<E>(parse: string -> Option<E>, raw: seq<string>, b: nat) {
    && b <= |raw|
    && (forall k :: 0 <= k < b ==> Blank(raw[k]) || parse(raw[k]).Some?)
    && (b < |raw| ==> !Blank(raw[b]) && parse(raw[b]).None?)
  }

  lemma {:induction false} FirstBadIs<E>(parse: string -> Option<E>, raw: seq<string>)
    ensures IsFirstBad(parse, raw, FirstBad(parse, raw))
  {
    hide Blank;
    if raw != [] {
      FirstBadIs(parse, raw[..|raw| - 1]);
    }
  }

  /** The events are those of the lines at these places: all that are not blank, in order, before the first bad one. */
  predicate DeliversUpTo<E(==)>(parse: string -> Option<E>, raw: seq<string>, b: nat, places: seq<int>,
      events: seq<E>) {
    && b <= |raw| && Increasing(places) && (forall k :: k in places ==> 0 <= k < b)
    && (forall k :: 0 <= k < b ==> (k in places <==> !Blank(raw[k])))
    && |events| == |places|
    && forall i :: 0 <= i < |places| ==> 0 <= places[i] < |raw| && parse(raw[places[i]]) == Some(events[i])
  }

  lemma HandlesOneMore<E>(parse: string -> Option<E>, raw: seq<string>, places: seq<int>, events: seq<E>, line: string)
    requires DeliversUpTo(parse, raw, |raw|, places, events)
    ensures Blank(line) ==> DeliversUpTo(parse, raw + [line], |raw| + 1, places, events)
    ensures !Blank(line) && parse(line).Some? ==>
              DeliversUpTo(parse, raw + [line], |raw| + 1, places + [|raw|], events + [parse(line).value])
  {
    hide Blank, Increasing;
    OneMorePlace(places, |raw|);
    assert forall i :: 0 <= i < |places| ==> places[i] in places;
  }

  lemma MoreLinesUpTo<E>(parse: string -> Option<E>, raw: seq<string>, b: nat, places: seq<int>, events: seq<E>,
      line: string)
    requires DeliversUpTo(parse, raw, b, places, events)
    ensures DeliversUpTo(parse, raw + [line], b, places, events)
  {
    hide Blank;
  }

  lemma {:induction false} HandledDelivers<E>(parse: string -> Option<E>, raw: seq<string>) returns (places: seq<int>)
    ensures var b := FirstBad(parse, raw);
            && DeliversUpTo(parse, raw, b, places, HandleAll(parse, raw).events)
            && (HandleAll(parse, raw).failed <==> b < |raw|)
  {
    hide DeliversUpTo, Blank, Trim;
    places := [];
    if raw == [] {
      NothingHandledYet(parse);
    } else {
      var n := |raw| - 1;
      var before, line := raw[..n], raw[n];
      places := HandledDelivers(parse, before);
      assert raw == before + [line];
      var b, events := FirstBad(parse, before), HandleAll(parse, before).events;
      if b < n {
        MoreLinesUpTo(parse, before, b, places, events, line);
      } else if !Blank(line) && parse(line).None? {
        MoreLinesUpTo(parse, before, n, places, events, line);
      } else {
        HandlesOneMore(parse, before, places, events, line);
        if !Blank(line) { places := places + [n]; }
      }
    }
  }

  lemma NothingHandledYet<E>(parse: string -> Option<E>)
    ensures DeliversUpTo(parse, [], 0, [], HandleAll(parse, []).events)
  {
  }

  /** The JSON reader delivers, of the lines with the tail, exactly those before the first bad one that are not blank,
      each once and in order, and fails exactly if there is a bad one. */
  lemma StreamedDelivers<E>(parse: string -> Option<E>, text: string) returns (b: nat, places: seq<int>)
    ensures |RawLines(text)| == |Terminated(text)| + 1
    ensures forall k :: 0 <= k < |Terminated(text)| ==> Handles(Terminated(text)[k], RawLines(text)[k])
    ensures RawLines(text)[|Terminated(text)|] == Rest(text)
    ensures IsFirstBad(parse, RawLines(text), b)
    ensures DeliversUpTo(parse, RawLines(text), b, places, Streamed(parse, text).events)
    ensures Streamed(parse, text).failed <==> b < |RawLines(text)|
  {
    b := FirstBad(parse, RawLines(text));
    FirstBadIs(parse, RawLines(text));
    places := HandledDelivers(parse, RawLines(text));
    forall k | 0 <= k < |Terminated(text)| ensures Handles(Terminated(text)[k], RawLines(text)[k]) {
      ChopsReturn(Terminated(text)[k]);
    }
    hide Terminated, Rest, DeliversUpTo, IsFirstBad, FirstBad, HandleAll;
  }

  // ---------------------------------------------------------------------------------------
  // Agreement of the readers
  // ---------------------------------------------------------------------------------------

  /** A parser of JSON text: space around a value that parses changes nothing. */
  ghost predicate IgnoresSpace<E(!new)>(parse: string -> Option<E>) {
    forall s :: parse(s).Some? ==> parse(Trim(s)) == parse(s)
  }

  lemma ChoppedLine(line: string)
    ensures Trim(ChopReturn(line)) == Trim(line)
  {
    if line != "" && line[|line| - 1] == '\r' {
      assert line == line[..|line| - 1] + ['\r'];
      TrimAppended(line[..|line| - 1], '\r');
    }
  }

  /** The first line that is not blank and does not parse, or the number of lines. */
  function FirstBad<E>(parse: string -> Option<E>, lines: seq<string>): (b: nat)
    ensures b <= |lines|
  {
    if lines == [] then 0
    else
      var n := |lines| - 1;
      var b := FirstBad(parse, lines[..n]);
      if b < n then b else if !Blank(lines[n]) && parse(lines[n]).None? then n else n + 1
  }

  /** Stopping at the first bad line delivers exactly the events of the lines before it. */
  lemma {:induction false} HandledUpTo<E(!new)>(parse: string -> Option<E>, raw: seq<string>, lines: seq<string>)
    requires IgnoresSpace(parse) && |raw| == |lines| && forall k :: 0 <= k < |raw| ==> Trim(raw[k]) == Trim(lines[k])
    ensures HandleAll(parse, raw).failed <==> FirstBad(parse, raw) < |raw|
    ensures HandleAll(parse, raw).events == Parsed(parse, Kept(lines[..FirstBad(parse, raw)]))
  {
    hide Trim, Kept, Parsed, EventsOf, Blank;
    if lines == [] {
      NothingDelivered(parse, lines);
    } else {
      var n := |lines| - 1;
      var b := FirstBad(parse, raw[..n]);
      HandledUpTo(parse, raw[..n], lines[..n]);
      assert lines[..n][..b] == lines[..b];
      BlankIffTrimmedAway(raw[n]);
      assert lines[..n] + [lines[n]] == lines[..n + 1];
      OneMoreLine(parse, lines[..n], lines[n]);
      OneLine(parse, lines[n]);
    }
  }

  lemma OneMoreLine<E>(parse: string -> Option<E>, lines: seq<string>, line: string)
    ensures Parsed(parse, Kept(lines + [line])) == Parsed(parse, Kept(lines)) + EventsOf(parse, line)
  {
    hide Trim;
    EventsAppend(parse, lines, [line]);
  }

  /** Lines deliver nothing exactly if none of them does. */
  lemma {:induction false} NothingDelivered<E>(parse: string -> Option<E>, lines: seq<string>)
    ensures Parsed(parse, Kept(lines)) == [] <==> forall k :: 0 <= k < |lines| ==> EventsOf(parse, lines[k]) == []
  {
    hide EventsOf, Trim;
    if lines != [] {
      var n := |lines| - 1;
      NothingDelivered(parse, lines[..n]);
      assert lines[..n] + [lines[n]] == lines;
      OneMoreLine(parse, lines[..n], lines[n]);
    }
  }

  /** The lines of the first readers, and the same lines as the JSON reader handles them. */
  function RawLines(text: string): seq<string> {
    Chopped(Terminated(text)) + [Rest(text)]
  }

  lemma StreamedUpTo<E(!new)>(parse: string -> Option<E>, text: string)
    requires IgnoresSpace(parse)
    ensures var lines, b := Terminated(text) + [Rest(text)], FirstBad(parse, RawLines(text));
            Streamed(parse, text).events == Parsed(parse, Kept(lines[..b])) && |RawLines(text)| == |lines|
  {
    hide Trim, ChopReturn;
    var lines := Terminated(text);
    forall k | 0 <= k < |lines| ensures Trim(Chopped(lines)[k]) == Trim(lines[k]) {
      ChoppedLine(lines[k]);
    }
    HandledUpTo(parse, RawLines(text), lines + [Rest(text)]);
  }

  /** The events of the first lines are a prefix of those of all, and all of them exactly if nothing is missed. */
  lemma FirstLinesDeliver<E>(parse: string -> Option<E>, lines: seq<string>, b: nat)
    requires b <= |lines|
    ensures Parsed(parse, Kept(lines[..b])) <= Parsed(parse, Kept(lines))
    ensures Parsed(parse, Kept(lines[..b])) == Parsed(parse, Kept(lines)) <==> NothingMissed(parse, lines, b)
  {
    hide Kept, Parsed, EventsOf;
    assert lines == lines[..b] + lines[b..];
    EventsAppend(parse, lines[..b], lines[b..]);
    NothingDelivered(parse, lines[b..]);
    assert forall k :: b <= k < |lines| ==> lines[k] == lines[b..][k - b];
  }

  /** On every text the JSON reader delivers a prefix of what the others deliver and the tail. */
  lemma StreamedAgainstFramed<E(!new)>(parse: string -> Option<E>, text: string)
    requires IgnoresSpace(parse)
    ensures Streamed(parse, text).events <= Framed(parse, text) + EventsOf(parse, Rest(text))
  {
    assert Framed(parse, text) == Parsed(parse, Kept(Terminated(text)));
    hide *;
    var lines := Terminated(text) + [Rest(text)];
    StreamedUpTo(parse, text);
    OneMoreLine(parse, Terminated(text), Rest(text));
    FirstLinesDeliver(parse, lines, FirstBad(parse, RawLines(text)));
  }

  /** No line from `b` on delivers an event. */
  ghost predicate NothingMissed<E>(parse: string -> Option<E>, lines: seq<string>, b: nat) {
    forall k :: b <= k < |lines| ==> EventsOf(parse, lines[k]) == []
  }

  /**
   * The readers agree exactly if the JSON reader meets no bad line and nothing but space follows the
   * last line feed, or if no terminated line from the first bad one on delivers an event.
   */
  lemma ReadersAgreeIff<E(!new)>(parse: string -> Option<E>, text: string)
    requires IgnoresSpace(parse)
    ensures var lines, b := Terminated(text), FirstBad(parse, RawLines(text));
            Streamed(parse, text).events == Framed(parse, text)
            <==> if b <= |lines| then NothingMissed(parse, lines, b) else Blank(Rest(text))
  {
    FramedIsParsed(parse, text);
    hide *;
    var lines, b := Terminated(text), FirstBad(parse, RawLines(text));
    StreamedUpTo(parse, text);
    if b <= |lines| {
      TakeOfSnoc(lines, Rest(text), b);
      FirstLinesDeliver(parse, lines, b);
    } else {
      TakeOfSnoc(lines, Rest(text), b);
      OneMoreLine(parse, lines, Rest(text));
      GoodTail(parse, text);
      NothingAdded(Parsed(parse, Kept(lines)), EventsOf(parse, Rest(text)));
    }
  }

  lemma FramedIsParsed<E>(parse: string -> Option<E>, text: string)
    ensures Framed(parse, text) == Parsed(parse, Kept(Terminated(text)))
  {
  }

  lemma TakeOfSnoc(lines: seq<string>, last: string, b: nat)
    requires b <= |lines| + 1
    ensures (lines + [last])[..b] == if b <= |lines| then lines[..b] else lines + [last]
  {
  }

  lemma NothingAdded<E>(a: seq<E>, b: seq<E>)
    ensures a + b == a <==> b == []
  {
    assert |a + b| == |a| + |b|;
  }

  /** With no bad line the tail delivers nothing exactly if it is blank. */
  lemma GoodTail<E(!new)>(parse: string -> Option<E>, text: string)
    requires IgnoresSpace(parse) && FirstBad(parse, RawLines(text)) == |RawLines(text)|
    ensures EventsOf(parse, Rest(text)) == [] <==> Blank(Rest(text))
  {
    hide Terminated, Rest, Trim, ChopReturn;
    var raw := RawLines(text);
    assert raw[|raw| - 1] == Rest(text);
    OneLine(parse, Rest(text));
    BlankIffTrimmedAway(Rest(text));
  }
}
