/** The console's event stream (api.ts): chunks of decoded text are buffered, split on blank
    lines, and each complete frame's data line is parsed and delivered. */
module SseStream {
  import opened Js

  /** A blank line: two line feeds in a row. */
  predicate BreakAt(s: string, i: int) {
    0 <= i < |s| - 1 && s[i] == '\n' && s[i + 1] == '\n'
  }

  /** Where the first blank line starts. */
  function FirstBreak(s: string): (r: Option<nat>)
    ensures r.Some? ==> BreakAt(s, r.value) && forall j :: 0 <= j < r.value ==> !BreakAt(s, j)
    ensures r.None? ==> forall j :: !BreakAt(s, j)
  {
    if |s| < 2 then None
    else if BreakAt(s, 0) then Some(0)
    else
      var rest := FirstBreak(s[1..]);
      assert forall j :: 0 < j ==> (BreakAt(s, j) <==> BreakAt(s[1..], j - 1));
      if rest.None? then None else Some(rest.value + 1)
  }

  /** `s.split("\n\n")`. */
  function SplitFrames(s: string): (parts: seq<string>)
    ensures |parts| >= 1
    decreases |s|
  {
    match FirstBreak(s)
    case None => [s]
    case Some(i) => [s[..i]] + SplitFrames(s[i + 2..])
  }

  function Init<T>(s: seq<T>): seq<T>
    requires |s| > 0
  {
    s[..|s| - 1]
  }

  function Last<T>(s: seq<T>): T
    requires |s| > 0
  {
    s[|s| - 1]
  }

  lemma FirstBreakStays(a: string, b: string)
    requires FirstBreak(a).Some?
    ensures FirstBreak(a + b) == FirstBreak(a)
  {
    var i := FirstBreak(a).value;
    assert BreakAt(a + b, i);
    forall j | 0 <= j < i ensures !BreakAt(a + b, j) {
      assert !BreakAt(a, j);
    }
  }

  /** Text that arrives later never moves an earlier break: splitting a + b is splitting a,
      and then splitting what a left over, followed by b. */
  lemma {:induction false} SplitAppend(a: string, b: string)
    ensures SplitFrames(a + b) == Init(SplitFrames(a)) + SplitFrames(Last(SplitFrames(a)) + b)
    decreases |a|
  {
    match FirstBreak(a)
    case None =>
      assert Init([a]) == [];
    case Some(i) =>
      var head, tail := a[..i], a[i + 2..];
      FirstBreakStays(a, b);
      assert (a + b)[..i] == head && (a + b)[i + 2..] == tail + b;
      assert SplitFrames(a) == [head] + SplitFrames(tail);
      assert SplitFrames(a + b) == [head] + SplitFrames(tail + b);
      SplitAppend(tail, b);
      hide SplitFrames;
      PushFront(head, SplitFrames(tail), SplitFrames(Last(SplitFrames(tail)) + b));
  }

  lemma PushFront(head: string, parts: seq<string>, more: seq<string>)
    requires |parts| >= 1
    ensures Last([head] + parts) == Last(parts)
    ensures Init([head] + parts) + more == [head] + (Init(parts) + more)
  {
  }

  // ---- one frame -----------------------------------------------------------

  function FirstLineFeed(s: string): (r: Option<nat>)
    ensures r.Some? ==> r.value < |s| && s[r.value] == '\n' && '\n' !in s[..r.value]
    ensures r.None? ==> '\n' !in s
  {
    if s == "" then None
    else if s[0] == '\n' then Some(0)
    else
      var rest := FirstLineFeed(s[1..]);
      if rest.None? then None else
      assert s[..rest.value + 1] == [s[0]] + s[1..][..rest.value];
      Some(rest.value + 1)
  }

  /** `s.split("\n")`. */
  function Lines(s: string): (lines: seq<string>)
    ensures |lines| >= 1
    decreases |s|
  {
    match FirstLineFeed(s)
    case None => [s]
    case Some(i) => [s[..i]] + Lines(s[i + 1..])
  }

  predicate IsDataLine(line: string) {
    |line| >= 5 && line[..5] == "data:"
  }

  /** `lines.find(l => l.startsWith("data:"))`. */
  function FindDataLine(lines: seq<string>): (line: Option<string>)
    ensures line.Some? ==> IsDataLine(line.value)
  {
    if lines == [] then None
    else if IsDataLine(lines[0]) then Some(lines[0])
    else FindDataLine(lines[1..])
  }

  /** What `String.prototype.trim` strips. */
  predicate IsSpace(c: char) {
    || c in "\t\n\r "
    || c in {'\U{0B}', '\U{0C}', '\U{A0}', '\U{1680}', '\U{2028}', '\U{2029}', '\U{202F}', '\U{205F}', '\U{3000}', '\U{FEFF}'}
    || '\U{2000}' <= c <= '\U{200A}'
  }

  function TrimStart(s: string): string {
    if s != "" && IsSpace(s[0]) then TrimStart(s[1..]) else s
  }

  function TrimEnd(s: string): string {
    if s != "" && IsSpace(s[|s| - 1]) then TrimEnd(s[..|s| - 1]) else s
  }

  function Trim(s: string): string {
    TrimEnd(TrimStart(s))
  }

  /** The text handed to the JSON parser, if the frame gets that far. */
  function Payload(dataLine: Option<string>): Option<string> {
    if dataLine.None? || !IsDataLine(dataLine.value) then None else
    var data := Trim(dataLine.value[5..]);
    if data == "" || data == "keepalive" || data[0] != '{' then None else Some(data)
  }

  /** The events a data line delivers: one, or none. parse stands for `JSON.parse`, None for a throw. */
  function Deliver<E>(dataLine: Option<string>, parse: string -> Option<E>): seq<E> {
    match Payload(dataLine)
    case None => []
    case Some(data) => match parse(data) case Some(event) => [event] case None => []
  }

  function FrameEvents<E>(frame: string, parse: string -> Option<E>): seq<E> {
    Deliver(FindDataLine(Lines(frame)), parse)
  }

  function EventsOf<E>(frames: seq<string>, parse: string -> Option<E>): seq<E> {
    if frames == [] then [] else EventsOf(Init(frames), parse) + FrameEvents(Last(frames), parse)
  }

  lemma {:induction false} EventsAppend<E>(a: seq<string>, b: seq<string>, parse: string -> Option<E>)
    ensures EventsOf(a + b, parse) == EventsOf(a, parse) + EventsOf(b, parse)
  {
    hide FrameEvents;
    if b == [] {
      assert a + b == a;
    } else {
      assert Init(a + b) == a + Init(b) && Last(a + b) == Last(b);
      EventsAppend(a, Init(b), parse);
    }
  }

  function Joined(chunks: seq<string>): string {
    if chunks == [] then "" else Joined(Init(chunks)) + Last(chunks)
  }

  /** The reading loop. However the stream is cut into chunks, what is delivered, in order,
      is what splitting the whole text delivers, without its unterminated tail. */
  method StreamEvents<E>(chunks: seq<string>, parse: string -> Option<E>) returns (delivered: seq<E>, buf: string)
    ensures delivered == EventsOf(Init(SplitFrames(Joined(chunks))), parse)
    ensures buf == Last(SplitFrames(Joined(chunks)))
  {
    delivered, buf := [], "";
    SplitNothing();
    hide SplitFrames, FrameEvents;
    for c := 0 to |chunks|
      invariant delivered == EventsOf(Init(SplitFrames(Joined(chunks[..c]))), parse)
      invariant buf == Last(SplitFrames(Joined(chunks[..c])))
    {
      ghost var before := Joined(chunks[..c]);
      assert chunks[..c + 1][..c] == chunks[..c];
      SplitAppend(before, chunks[c]);
      buf := buf + chunks[c];
      var frames := SplitFrames(buf);
      buf := frames[|frames| - 1];
      frames := frames[..|frames| - 1];
      var events := ReadFrames(frames, parse);
      delivered := delivered + events;
      EventsAppend(Init(SplitFrames(before)), frames, parse);
      assert Init(SplitFrames(Joined(chunks[..c + 1]))) == Init(SplitFrames(before)) + frames;
    }
    assert chunks[..|chunks|] == chunks;
  }

  lemma SplitNothing()
    ensures SplitFrames("") == [""]
  {
    assert FirstBreak("").None?;
  }

  /** The per-frame filter: the first data line, trimmed, parsed when it looks like an object. */
  method ReadFrames<E>(frames: seq<string>, parse: string -> Option<E>) returns (delivered: seq<E>)
    ensures delivered == EventsOf(frames, parse)
  {
    hide Trim, Lines, EventsOf;
    delivered := [];
    EventsOfNone(parse);
    for f := 0 to |frames|
      invariant delivered == EventsOf(frames[..f], parse)
    {
      EventsStep(frames, f, parse);
      var dataLine := FindDataLine(Lines(frames[f]));
      if dataLine.None? {
        continue;
      }
      var data := Trim(dataLine.value[5..]);
      if data == "" || data == "keepalive" || data[0] != '{' {
        continue;
      }
      var event := parse(data);
      if event.Some? {
        delivered := delivered + [event.value];
      }
    }
    assert frames[..|frames|] == frames;
  }

  lemma EventsOfNone<E>(parse: string -> Option<E>)
    ensures EventsOf([], parse) == []
  {
  }

  lemma EventsStep<E>(frames: seq<string>, f: nat, parse: string -> Option<E>)
    requires f < |frames|
    ensures EventsOf(frames[..f + 1], parse) == EventsOf(frames[..f], parse) + FrameEvents(frames[f], parse)
  {
    hide FrameEvents;
    assert Init(frames[..f + 1]) == frames[..f];
  }

  // ---- the line reader of the event stream format --------------------------

  /** Reading line by line, as section 9.2.6 of the WHATWG HTML Standard interprets a stream
      whose lines end in line feeds: a blank line dispatches what was gathered, an unfinished
      last line is discarded. What is gathered here is the first data line. */
  function ReadLines<E>(text: string, pending: Option<string>, parse: string -> Option<E>): seq<E>
    decreases |text|
  {
    match FirstLineFeed(text)
    case None => []
    case Some(k) =>
      var line, rest := text[..k], text[k + 1..];
      if line == "" then Deliver(pending, parse) + ReadLines(rest, None, parse)
      else ReadLines(rest, if pending.None? && IsDataLine(line) then Some(line) else pending, parse)
  }

  lemma FirstLineFeedIs(s: string, k: nat)
    requires k < |s| && s[k] == '\n' && '\n' !in s[..k]
    ensures FirstLineFeed(s) == Some(k)
  {
    var r := FirstLineFeed(s);
    assert r.Some? by {
      assert s[k] in s;
    }
    assert forall i :: 0 <= i < k ==> s[..k][i] == s[i] && s[..k][i] != '\n';
    assert forall i :: 0 <= i < r.value ==> s[..r.value][i] == s[i] && s[..r.value][i] != '\n';
  }

  /** The first break is the one with no break before it. */
  lemma FirstBreakIs(s: string, i: nat)
    requires BreakAt(s, i) && forall j :: 0 <= j < i ==> !BreakAt(s, j)
    ensures FirstBreak(s) == Some(i)
  {
  }

  /** Dropping a line that does not end in a break moves the first break by as much. */
  lemma BreakAfterLine(s: string, k: nat)
    requires FirstLineFeed(s) == Some(k) && k < |s| && !BreakAt(s, k)
    ensures FirstBreak(s).None? ==> FirstBreak(s[k + 1..]).None?
    ensures FirstBreak(s).Some? ==> FirstBreak(s).value > k && FirstBreak(s[k + 1..]) == Some(FirstBreak(s).value - k - 1)
    ensures k + 1 < |s| ==> s[k + 1] != '\n'
  {
    hide *;
    FeedFacts(s, k);
    if FirstBreak(s).None? {
      NoLaterBreak(s, k);
    } else {
      var i := FirstBreak(s).value;
      BreakPastLine(s, k, i);
      LaterBreak(s, k, i);
    }
  }

  lemma FeedFacts(s: string, k: nat)
    requires FirstLineFeed(s) == Some(k) && k < |s|
    ensures s[k] == '\n' && '\n' !in s[..k]
    ensures !BreakAt(s, k) && k + 1 < |s| ==> s[k + 1] != '\n'
  {
  }

  lemma BreakPastLine(s: string, k: nat, i: nat)
    requires k < |s| && '\n' !in s[..k] && !BreakAt(s, k) && FirstBreak(s) == Some(i)
    ensures i > k
  {
    assert forall j :: 0 <= j < k ==> s[..k][j] == s[j];
  }

  lemma NoLaterBreak(s: string, k: nat)
    requires k < |s| && FirstBreak(s).None?
    ensures FirstBreak(s[k + 1..]).None?
  {
    var rest := s[k + 1..];
    var r := FirstBreak(rest);
    assert r.Some? ==> BreakAt(s, r.value + k + 1);
  }

  lemma BreakShift(s: string, k: nat, j: nat)
    requires k < |s|
    ensures BreakAt(s[k + 1..], j) <==> BreakAt(s, j + k + 1)
  {
  }

  lemma FirstBreakFacts(s: string, i: nat)
    requires FirstBreak(s) == Some(i)
    ensures BreakAt(s, i) && forall j :: 0 <= j < i ==> !BreakAt(s, j)
  {
  }

  lemma LaterBreak(s: string, k: nat, i: nat)
    requires k < |s| && FirstBreak(s) == Some(i) && k < i
    ensures FirstBreak(s[k + 1..]) == Some(i - k - 1)
  {
    hide *;
    var rest := s[k + 1..];
    FirstBreakFacts(s, i);
    BreakShift(s, k, i - k - 1);
    forall j | 0 <= j < i - k - 1
      ensures !BreakAt(rest, j)
    {
      BreakShift(s, k, j);
    }
    FirstBreakIs(rest, i - k - 1);
  }

  /** Lines before a break, and the break itself, dispatch exactly that frame's events. */
  lemma {:induction false} ReadOneFrame<E>(t: string, j: nat, pending: Option<string>, parse: string -> Option<E>)
    requires FirstBreak(t) == Some(j) && j + 2 <= |t| && (pending.Some? ==> t[0] != '\n')
    ensures ReadLines(t, pending, parse) == Deliver(Gathered(t[..j], pending), parse) + ReadLines(t[j + 2..], None, parse)
    decreases |t|
  {
    hide *;
    BreakHasFeed(t, j);
    var k := FirstLineFeed(t).value;
    if k == j {
      LastLineOfFrame(t, j, pending, parse);
    } else {
      var rest := t[k + 1..];
      BreakAfterLine(t, k);
      assert rest[0] == t[k + 1];
      assert rest[j - k - 1 + 2..] == t[j + 2..];
      PassLine(t, k, j, pending, parse);
      ReadOneFrame(rest, j - k - 1, Gather(t[..k], pending), parse);
    }
  }

  /** The data line a whole frame leaves the reader with. */
  function Gathered(frame: string, pending: Option<string>): Option<string> {
    if pending.Some? then pending else FindDataLine(Lines(frame))
  }

  /** What the reader holds after a line that is not the end of a frame. */
  function Gather(line: string, pending: Option<string>): Option<string> {
    if pending.None? && IsDataLine(line) then Some(line) else pending
  }

  lemma PassLine<E>(t: string, k: nat, j: nat, pending: Option<string>, parse: string -> Option<E>)
    requires FirstLineFeed(t) == Some(k) && k < j <= |t| && (pending.Some? ==> t[0] != '\n')
    ensures ReadLines(t, pending, parse) == ReadLines(t[k + 1..], Gather(t[..k], pending), parse)
    ensures Gathered(t[..j], pending) == Gathered(t[k + 1..][..j - k - 1], Gather(t[..k], pending))
  {
    SplitFirstLine(t, k, j);
    hide Lines;
  }

  lemma BreakHasFeed(t: string, j: nat)
    requires FirstBreak(t) == Some(j)
    ensures j + 2 <= |t| && FirstLineFeed(t).Some? && FirstLineFeed(t).value <= j
    ensures FirstLineFeed(t).value == j ==> BreakAt(t, j) && '\n' !in t[..j]
    ensures FirstLineFeed(t).value < j ==> !BreakAt(t, FirstLineFeed(t).value)
  {
    assert t[j] in t;
    var k := FirstLineFeed(t).value;
    assert forall i :: 0 <= i < k ==> t[i] == t[..k][i];
  }

  lemma SplitFirstLine(t: string, k: nat, j: nat)
    requires FirstLineFeed(t) == Some(k) && k < j <= |t|
    ensures Lines(t[..j]) == [t[..k]] + Lines(t[k + 1..][..j - k - 1])
  {
    hide FirstLineFeed, Lines;
    FeedFacts(t, k);
    var frame := t[..j];
    assert frame[..k] == t[..k] && frame[k] == t[k];
    assert frame[k + 1..] == t[k + 1..][..j - k - 1];
    FirstLineFeedIs(frame, k);
    LinesOf(frame, k);
  }

  lemma LinesOf(s: string, k: nat)
    requires k < |s| && FirstLineFeed(s) == Some(k)
    ensures Lines(s) == [s[..k]] + Lines(s[k + 1..])
  {
    hide FirstLineFeed;
  }

  lemma LastLineOfFrame<E>(t: string, j: nat, pending: Option<string>, parse: string -> Option<E>)
    requires BreakAt(t, j) && j + 2 <= |t| && FirstLineFeed(t) == Some(j) && '\n' !in t[..j]
    requires pending.Some? ==> t[0] != '\n'
    ensures ReadLines(t, pending, parse) == Deliver(Gathered(t[..j], pending), parse) + ReadLines(t[j + 2..], None, parse)
  {
    hide *;
    var frame, rest := t[..j], t[j + 1..];
    assert t[j] == '\n' && t[j + 1] == '\n' by {
      BreakIsFeeds(t, j);
    }
    ReadStep(t, j, pending, parse);
    FirstLineFeedIs(rest, 0);
    assert rest[..0] == "" && rest[1..] == t[j + 2..];
    OneLine(frame, pending);
    DeliverNothing(parse);
    if frame == "" {
      ReadStep(rest, 0, None, parse);
      assert Gather(frame, pending) == pending by {
        GatherNothing(pending);
      }
    } else {
      ReadStep(rest, 0, Gather(frame, pending), parse);
    }
  }

  lemma BreakIsFeeds(t: string, j: nat)
    requires BreakAt(t, j)
    ensures j + 1 < |t| && t[j] == '\n' && t[j + 1] == '\n'
  {
  }

  lemma GatherNothing(pending: Option<string>)
    ensures Gather("", pending) == pending
  {
  }

  lemma OneLine(frame: string, pending: Option<string>)
    requires '\n' !in frame
    ensures Gathered(frame, pending) == Gather(frame, pending)
  {
    assert FirstLineFeed(frame).None?;
    assert Lines(frame) == [frame];
    hide Lines, IsDataLine;
    assert FindDataLine([frame][1..]) == None;
  }

  lemma ReadStep<E>(t: string, k: nat, pending: Option<string>, parse: string -> Option<E>)
    requires FirstLineFeed(t) == Some(k) && k < |t|
    ensures ReadLines(t, pending, parse) ==
      if t[..k] == "" then Deliver(pending, parse) + ReadLines(t[k + 1..], None, parse)
      else ReadLines(t[k + 1..], Gather(t[..k], pending), parse)
  {
  }

  lemma DeliverNothing<E>(parse: string -> Option<E>)
    ensures Deliver(None, parse) == []
  {
  }

  lemma {:induction false} ReadUnterminated<E>(t: string, pending: Option<string>, parse: string -> Option<E>)
    requires FirstBreak(t).None? && (pending.Some? && t != "" ==> t[0] != '\n')
    ensures ReadLines(t, pending, parse) == []
    decreases |t|
  {
    var feed := FirstLineFeed(t);
    if feed.Some? {
      var k := feed.value;
      assert !BreakAt(t, k);
      BreakAfterLine(t, k);
      var pending' := if pending.None? && IsDataLine(t[..k]) then Some(t[..k]) else pending;
      ReadUnterminated(t[k + 1..], if t[..k] == "" then None else pending', parse);
    }
  }

  /** Splitting on blank lines and reading line by line deliver the same events. */
  lemma {:induction false} FramesAreLines<E>(text: string, parse: string -> Option<E>)
    ensures EventsOf(Init(SplitFrames(text)), parse) == ReadLines(text, None, parse)
    decreases |text|
  {
    match FirstBreak(text)
    case None =>
      assert Init(SplitFrames(text)) == [];
      ReadUnterminated(text, None, parse);
    case Some(i) =>
      var head, rest := text[..i], SplitFrames(text[i + 2..]);
      assert SplitFrames(text) == [head] + rest;
      FramesAreLines(text[i + 2..], parse);
      ReadOneFrame(text, i, None, parse);
      hide SplitFrames, ReadLines, FirstBreak, Deliver;
      assert Init([head] + rest) == [head] + Init(rest);
      EventsAppend([head], Init(rest), parse);
      OneFrame(head, parse);
  }

  lemma OneFrame<E>(frame: string, parse: string -> Option<E>)
    ensures EventsOf([frame], parse) == FrameEvents(frame, parse)
  {
    assert Init([frame]) == [];
  }
}
