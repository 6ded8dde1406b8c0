/** From the hub to the console: frames as an event stream writes them, read by the console's loop
    (api.ts), deliver exactly the objects that were sent. */
module SseRoundTrip {
  import opened Js
  import opened SseStream
  import opened SseData

  /** What a server sends: an event of some type with one line of data, or a comment to keep the
      connection alive. gap and tail are the blanks written around the data. */
  datatype Sent = Event(kind: Option<string>, gap: string, data: string, tail: string) | Comment(text: string)

  predicate OneLine(s: string) {
    '\n' !in s
  }

  ghost predicate Sendable(sent: Sent) {
    match sent
    case Event(kind, gap, data, tail) =>
      && (kind.Some? ==> OneLine(kind.value))
      && Solid(data) && OneLine(gap) && Blank(gap) && OneLine(tail) && Blank(tail)
    case Comment(text) => OneLine(text)
  }

  function Frame(sent: Sent): string {
    match sent
    case Event(kind, gap, data, tail) =>
      (if kind.Some? then "event: " + kind.value + "\n" else "") + ("data:" + gap + data + tail)
    case Comment(text) => ":" + text
  }

  function Stream(sent: seq<Sent>): string {
    if sent == [] then "" else Stream(sent[..|sent| - 1]) + (Frame(sent[|sent| - 1]) + "\n\n")
  }

  /** What should arrive: the objects that parse, in order. */
  function Arriving<E>(sent: seq<Sent>, parse: string -> Option<E>): seq<E> {
    if sent == [] then [] else
    var last := sent[|sent| - 1];
    Arriving(sent[..|sent| - 1], parse) +
      if last.Event? && last.data != "" && last.data[0] == '{' && parse(last.data).Some? then [parse(last.data).value] else []
  }

  // ---- one frame -----------------------------------------------------------

  lemma TrimPadded(gap: string, data: string, tail: string)
    requires Solid(data) && Blank(gap) && Blank(tail)
    ensures Trim(gap + data + tail) == data
  {
    TrimDropsTail(gap + data, tail);
    TrimDropsHead(gap, data);
    TrimsToItself(data);
    hide Trim;
  }

  lemma LinesOfFrame(sent: Sent)
    requires Sendable(sent) && sent.Event?
    ensures var line := "data:" + sent.gap + sent.data + sent.tail;
      Lines(Frame(sent)) == if sent.kind.Some? then ["event: " + sent.kind.value, line] else [line]
  {
    var line := "data:" + sent.gap + sent.data + sent.tail;
    if sent.kind.Some? {
      TwoLines("event: " + sent.kind.value, line);
      assert "event: " + sent.kind.value + "\n" + line == Frame(sent);
    } else {
      assert "" + line == line;
      assert FirstLineFeed(line).None?;
    }
  }

  lemma EventLineIsNoData(kind: string)
    ensures !IsDataLine("event: " + kind)
  {
    assert ("event: " + kind)[0] == 'e';
    assert "data:"[0] == 'd';
  }

  lemma DataLineFound(sent: Sent)
    requires Sendable(sent)
    ensures FindDataLine(Lines(Frame(sent))) == if sent.Event? then Some("data:" + sent.gap + sent.data + sent.tail) else None
  {
    if sent.Event? {
      var line := "data:" + sent.gap + sent.data + sent.tail;
      LinesOfFrame(sent);
      assert line[..5] == "data:";
      if sent.kind.Some? {
        EventLineIsNoData(sent.kind.value);
        assert ["event: " + sent.kind.value, line][1..] == [line];
      }
    } else {
      var frame := ":" + sent.text;
      assert FirstLineFeed(frame).None? && frame[0] == ':' && "data:"[0] == 'd';
      assert Lines(frame) == [frame] && FindDataLine([frame][1..]) == None;
    }
  }

  lemma PayloadIs(sent: Sent)
    requires Sendable(sent)
    ensures Payload(FindDataLine(Lines(Frame(sent)))) == if sent.Event? && sent.data[0] == '{' then Some(sent.data) else None
  {
    hide Trim, Lines, FindDataLine, Frame, Blank;
    DataLineFound(sent);
    if sent.Event? {
      var padded := sent.gap + sent.data + sent.tail;
      var line := "data:" + sent.gap + sent.data + sent.tail;
      assert line == "data:" + padded && line[5..] == padded && line[..5] == "data:";
      TrimPadded(sent.gap, sent.data, sent.tail);
      assert "keepalive"[0] == 'k';
    }
  }

  /** A frame delivers its object when it has one that parses, and nothing otherwise: no comment,
      no notice that is no object, no text the parser refuses. */
  lemma FrameDelivers<E>(sent: Sent, parse: string -> Option<E>)
    requires Sendable(sent)
    ensures FrameEvents(Frame(sent), parse) ==
      if sent.Event? && sent.data[0] == '{' && parse(sent.data).Some? then [parse(sent.data).value] else []
  {
    PayloadIs(sent);
    hide Payload, Lines, FindDataLine, Frame, Trim;
  }

  // ---- the stream ----------------------------------------------------------

  lemma FrameHasNoBreak(sent: Sent)
    requires Sendable(sent)
    ensures var frame := Frame(sent); frame != "" && frame[|frame| - 1] != '\n' && forall i :: !BreakAt(frame, i)
  {
    var frame := Frame(sent);
    if sent.Event? {
      var head := if sent.kind.Some? then "event: " + sent.kind.value + "\n" else "";
      var line := "data:" + sent.gap + sent.data + sent.tail;
      assert frame == head + line && OneLine(line);
      assert frame[|frame| - 1] == line[|line| - 1] && line[|line| - 1] in line;
      forall i
        ensures !BreakAt(frame, i)
      {
        if 0 <= i < |frame| - 1 {
          if i + 1 >= |head| {
            assert frame[i + 1] == line[i + 1 - |head|] && line[i + 1 - |head|] in line;
          } else {
            assert frame[i] == ("event: " + sent.kind.value)[i];
            assert OneLine("event: " + sent.kind.value);
          }
        }
      }
    } else {
      assert OneLine(frame) && frame[|frame| - 1] in frame;
      forall i
        ensures !BreakAt(frame, i)
      {
        assert 0 <= i < |frame| ==> frame[i] in frame;
      }
    }
  }

  lemma BreakBehind(frame: string)
    requires frame != "" && frame[|frame| - 1] != '\n' && forall i :: !BreakAt(frame, i)
    ensures FirstBreak(frame + "\n\n") == Some(|frame|)
  {
    var s := frame + "\n\n";
    assert BreakAt(s, |frame|);
    forall j | 0 <= j < |frame|
      ensures !BreakAt(s, j)
    {
      assert !BreakAt(frame, j) && s[j] == frame[j];
    }
    FirstBreakIs(s, |frame|);
    hide FirstBreak;
  }

  lemma SplitLast(s: string, i: nat)
    requires FirstBreak(s) == Some(i) && |s| == i + 2
    ensures SplitFrames(s) == [s[..i], ""]
  {
    hide FirstBreak;
    SplitNothing();
    assert s[i + 2..] == "";
  }

  lemma SplitOneFrame(frame: string)
    requires frame != "" && frame[|frame| - 1] != '\n' && forall i :: !BreakAt(frame, i)
    ensures SplitFrames(frame + "\n\n") == [frame, ""]
  {
    BreakBehind(frame);
    CutBehind(frame);
    SplitLast(frame + "\n\n", |frame|);
    hide *;
  }

  lemma CutBehind(frame: string)
    ensures var s := frame + "\n\n"; |s| == |frame| + 2 && s[..|frame|] == frame
  {
  }

  /** A frame more at the end of a split text. */
  lemma OneFrameMore(parts: seq<string>, frame: string)
    requires |parts| > 0
    ensures var more := Init(parts) + [frame, ""]; Init(more) == Init(parts) + [frame] && Last(more) == ""
  {
    assert [frame, ""] == [frame] + [""];
  }

  lemma StreamStep(sent: seq<Sent>)
    requires sent != []
    ensures Stream(sent) == Stream(sent[..|sent| - 1]) + (Frame(sent[|sent| - 1]) + "\n\n")
  {
  }

  lemma NothingSplits()
    ensures var parts := SplitFrames(Stream([])); |Init(parts)| == 0 && Last(parts) == ""
  {
    SplitNothing();
  }

  lemma {:induction false} StreamSplits(sent: seq<Sent>)
    requires forall i :: 0 <= i < |sent| ==> Sendable(sent[i])
    ensures var parts := SplitFrames(Stream(sent));
      && |Init(parts)| == |sent| && Last(parts) == ""
      && forall i :: 0 <= i < |sent| ==> Init(parts)[i] == Frame(sent[i])
  {
    hide SplitFrames, Frame, Sendable, Stream, Init, Last;
    if sent == [] {
      NothingSplits();
    } else {
      var front, last := sent[..|sent| - 1], sent[|sent| - 1];
      var parts, text := SplitFrames(Stream(front)), Frame(last) + "\n\n";
      StreamSplits(front);
      StreamStep(sent);
      FrameHasNoBreak(last);
      SplitOneFrame(Frame(last));
      SplitAppend(Stream(front), text);
      assert Last(parts) + text == text;
      OneFrameMore(parts, Frame(last));
    }
  }

  lemma {:induction false} FramesDeliver<E>(sent: seq<Sent>, frames: seq<string>, parse: string -> Option<E>)
    requires |frames| == |sent| && forall i :: 0 <= i < |sent| ==> Sendable(sent[i]) && frames[i] == Frame(sent[i])
    ensures EventsOf(frames, parse) == Arriving(sent, parse)
  {
    hide Frame, Sendable, FrameEvents;
    if sent != [] {
      var n := |sent| - 1;
      FramesDeliver(sent[..n], frames[..n], parse);
      FrameDelivers(sent[n], parse);
      SolidData(sent[n]);
      assert Init(frames) == frames[..n] && Last(frames) == frames[n];
    }
  }

  lemma SolidData(sent: Sent)
    requires Sendable(sent)
    ensures sent.Event? ==> sent.data != ""
  {
  }

  /** However the stream is cut into chunks, the loop delivers exactly the objects that were sent and
      parse, in the order they were sent in, and keeps nothing back. */
  lemma Arrives<E>(sent: seq<Sent>, chunks: seq<string>, parse: string -> Option<E>)
    requires (forall i :: 0 <= i < |sent| ==> Sendable(sent[i])) && Joined(chunks) == Stream(sent)
    ensures EventsOf(Init(SplitFrames(Joined(chunks))), parse) == Arriving(sent, parse)
    ensures Last(SplitFrames(Joined(chunks))) == ""
  {
    StreamSplits(sent);
    FramesDeliver(sent, Init(SplitFrames(Stream(sent))), parse);
    hide SplitFrames, EventsOf, Sendable, Frame;
  }

  /** What is trimmed off a data line, by code point: the white space and the line terminators of
      ECMAScript, sections 12.2 and 12.3. */
  lemma TrimmedExactly(c: char)
    ensures IsSpace(c) <==>
      || c as int in {0x09, 0x0A, 0x0B, 0x0C, 0x0D, 0x20, 0xA0, 0x1680, 0x2028, 0x2029, 0x202F, 0x205F, 0x3000, 0xFEFF}
      || 0x2000 <= c as int <= 0x200A
  {
  }
}
